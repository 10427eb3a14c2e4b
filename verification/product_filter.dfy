/**
 The product list filter of the products page: a product card stays displayed
 exactly when its title contains the search text (ignoring case), its
 category equals the selected one (or "all" is selected), and its price falls
 in the selected price band (or "all" is selected).
 */
module ProductFilter {
  import opened Wrappers
  import Text
  import JsParseInt

  /** Upper bound (exclusive) of the "low" band and lower bound of "medium". */
  const LowLimit: int := 225000
  /** Upper bound (exclusive) of the "medium" band and lower bound of "high". */
  const HighLimit: int := 675000

  /**
   One product card as the filter reads it: the text of its title element,
   its `data-category` attribute (`None` when absent) and its parsed
   `data-price` (`None` when `parseInt` gives NaN).
   */
  datatype Product = Product(title: string, category: Option<string>, price: Option<int>)

  /**
   The three filter controls. The search box is always present (without it
   the filter is never installed); the category and price selects may be
   missing from the page, in which case they act as "all".
   */
  datatype Controls = Controls(search: string, categorySelect: Option<string>, priceSelect: Option<string>)

  datatype Display = Block | Hidden

  /** Builds a card record from the raw attribute texts, parsing the price as the page does. */
  function ReadProduct(titleText: string, categoryAttr: Option<string>, priceAttr: Option<string>): Product {
    Product(titleText, categoryAttr, JsParseInt.ParsePriceAttribute(priceAttr))
  }

  /** A card whose `data-price` is an integer written in decimal carries exactly that price; a card without one carries NaN. */
  lemma ReadProductPrice(titleText: string, categoryAttr: Option<string>, n: int)
    ensures ReadProduct(titleText, categoryAttr, Some(JsParseInt.IntToString(n))).price == Some(n)
    ensures ReadProduct(titleText, categoryAttr, None).price == None
  {
    JsParseInt.ParseIntOfIntToString(n);
    JsParseInt.AbsentPriceIsNaN();
  }

  function SelectedOrAll(select: Option<string>): string {
    match select
    case None => "all"
    case Some(v) => v
  }

  predicate MatchesSearch(search: string, title: string) {
    Text.Includes(Text.Lower(title), Text.Lower(search))
  }

  predicate MatchesCategory(selected: string, category: Option<string>) {
    selected == "all" || category == Some(selected)
  }

  /** The price test as written: NaN fails every comparison. */
  predicate MatchesPrice(selected: string, price: Option<int>) {
    || selected == "all"
    || (selected == "low" && price.Some? && price.value < LowLimit)
    || (selected == "medium" && price.Some? && price.value >= LowLimit && price.value < HighLimit)
    || (selected == "high" && price.Some? && price.value >= HighLimit)
  }

  /** The display value the filter gives one card. */
  function Filter(c: Controls, p: Product): (d: Display)
    ensures d == Block <==>
      && (exists i :: Text.OccursAt(Text.Lower(p.title), Text.Lower(c.search), i))
      && MatchesCategory(SelectedOrAll(c.categorySelect), p.category)
      && MatchesPrice(SelectedOrAll(c.priceSelect), p.price)
  {
    Text.IncludesIff(Text.Lower(p.title), Text.Lower(c.search));
    var matchesSearch := MatchesSearch(c.search, p.title);
    var matchesCategory := MatchesCategory(SelectedOrAll(c.categorySelect), p.category);
    var matchesPrice := MatchesPrice(SelectedOrAll(c.priceSelect), p.price);
    if matchesSearch && matchesCategory && matchesPrice then Block else Hidden
  }

  /** One pass of the filter over every card, in page order. */
  function FilterAll(c: Controls, ps: seq<Product>): (ds: seq<Display>)
    ensures |ds| == |ps|
    ensures forall i :: 0 <= i < |ps| ==> ds[i] == Filter(c, ps[i])
  {
    seq(|ps|, i requires 0 <= i < |ps| => Filter(c, ps[i]))
  }

  // ---------------------------------------------------------------------
  // Reference definitions and the lemmas tying the filter to them.

  /** The band an integer price belongs to. */
  function Band(price: int): (b: string)
    ensures b == "low" || b == "medium" || b == "high"
  {
    if price < LowLimit then "low" else if price < HighLimit then "medium" else "high"
  }

  /**
   The bands partition the integers: under a band filter a known price
   matches exactly when the filter names its band, "all" matches every
   price, any other filter value matches nothing, and a NaN price matches
   only "all".
   */
  lemma PriceBandsPartition(selected: string, price: Option<int>)
    ensures price.Some? ==> (MatchesPrice(selected, price) <==> selected == "all" || selected == Band(price.value))
    ensures price.None? ==> (MatchesPrice(selected, price) <==> selected == "all")
    ensures selected !in {"all", "low", "medium", "high"} ==> !MatchesPrice(selected, price)
  {
  }

  /** Exactly one of the three bands matches any integer price. */
  lemma ExactlyOneBand(price: int)
    ensures MatchesPrice("low", Some(price)) ==> !MatchesPrice("medium", Some(price)) && !MatchesPrice("high", Some(price))
    ensures MatchesPrice("medium", Some(price)) ==> !MatchesPrice("high", Some(price))
    ensures MatchesPrice("low", Some(price)) || MatchesPrice("medium", Some(price)) || MatchesPrice("high", Some(price))
  {
  }

  /** A card is displayed iff all three tests pass; otherwise it is hidden. */
  lemma DisplayedIff(c: Controls, p: Product)
    ensures Filter(c, p) == Block <==>
      && (exists i :: Text.OccursAt(Text.Lower(p.title), Text.Lower(c.search), i))
      && (c.categorySelect.None? || c.categorySelect == Some("all") || p.category == c.categorySelect)
      && MatchesPrice(SelectedOrAll(c.priceSelect), p.price)
    ensures Filter(c, p) == Hidden <==> Filter(c, p) != Block
  {
    Text.IncludesIff(Text.Lower(p.title), Text.Lower(c.search));
  }

  /** An empty search text keeps every title. */
  lemma EmptySearchMatchesAll(title: string)
    ensures MatchesSearch("", title)
  {
    Text.IncludesEmpty(Text.Lower(title));
  }

  /** Search texts that differ only in letter case select the same titles. */
  lemma SearchIgnoresCase(a: string, b: string, title: string)
    requires Text.SameUpToCase(a, b)
    ensures MatchesSearch(a, title) <==> MatchesSearch(b, title)
  {
    Text.LowerEqualIff(a, b);
  }

  /** Titles that differ only in letter case match the same search texts. */
  lemma TitleIgnoresCase(search: string, t1: string, t2: string)
    requires Text.SameUpToCase(t1, t2)
    ensures MatchesSearch(search, t1) <==> MatchesSearch(search, t2)
  {
    Text.LowerEqualIff(t1, t2);
  }

  /** An upper-case search text finds a mixed-case title. */
  lemma UpperCaseSearchFindsTitle()
    ensures MatchesSearch("LAMP", "Smart Lamp")
  {
    assert Text.Lower("LAMP") == "lamp";
    assert Text.Lower("Smart Lamp") == "smart lamp";
    Text.OccurrenceIsFound("smart lamp", "lamp", 6);
  }

  /** With no category select, or "all" selected, every category passes, including a missing one. */
  lemma CategoryWildcard(c: Controls, category: Option<string>)
    requires c.categorySelect.None? || c.categorySelect == Some("all")
    ensures MatchesCategory(SelectedOrAll(c.categorySelect), category)
  {
  }

  /**
   The lamp/fan example: searching "lamp" keeps only the lamp; the "high"
   band keeps only the fan.
   */
  lemma LampAndFan()
    ensures var ps := [Product("Lamp", Some("lighting"), Some(100000)), Product("Fan", Some("cooling"), Some(700000))];
      && FilterAll(Controls("lamp", None, None), ps) == [Block, Hidden]
      && FilterAll(Controls("", None, Some("high")), ps) == [Hidden, Block]
  {
    var lamp := Product("Lamp", Some("lighting"), Some(100000));
    var fan := Product("Fan", Some("cooling"), Some(700000));
    assert Text.Lower("Lamp") == "lamp";
    assert Text.Lower("Fan") == "fan";
    assert Text.Lower("lamp") == "lamp";
    assert Text.Includes("lamp", "lamp");
    assert !Text.Includes("fan", "lamp");
    EmptySearchMatchesAll("Lamp");
    EmptySearchMatchesAll("Fan");
  }
}
