/** The backend's keyword classifier: transaction type and category by
    ordered substring tests over fixed keyword tables, and the record that
    `parse` assembles. Amount extraction and description clean-up are
    parameters. */
module Classifier {
  import opened Ledger
  import opened Text

  const IncomeWords: seq<string> := ["received", "paid", "salary", "income", "deposit", "sold"]
  const ExpenseWords: seq<string> := ["spent", "bought", "purchased", "paid for", "lunch", "fuel"]

  /** One entry of the category table. */
  datatype Category = Category(name: string, keywords: seq<string>)

  /** The category table, in the dictionary's insertion order, which is the
      order the classifier tries it in. */
  const Categories: seq<Category> := [
    Category("food", ["lunch", "dinner", "breakfast", "chakula", "cafe", "restaurant"]),
    Category("transport", ["fuel", "petrol", "gas", "transport", "uber", "bolt", "taxi"]),
    Category("bills", ["bill", "electricity", "water", "internet", "tv", "subscription"]),
    Category("shopping", ["shop", "buy", "purchase", "market"]),
    Category("income", ["salary", "paid", "received", "income", "mpesa received"]),
    Category("business", ["inventory", "wholesale", "stock", "supplies"]),
    Category("family", ["school", "medical", "hospital", "family", "mom", "dad"])
  ]

  const OtherCategory: string := "other"

  /** Characters Python's `str.strip()` removes (those for which `isspace()` holds). */
  predicate IsPySpace(c: char)
  {
    || c == ' ' || (0x09 <= c as int <= 0x0D) || (0x1C <= c as int <= 0x1F)
    || c as int == 0x85 || c as int == 0xA0 || c as int == 0x1680
    || (0x2000 <= c as int <= 0x200A) || c as int == 0x2028 || c as int == 0x2029
    || c as int == 0x202F || c as int == 0x205F || c as int == 0x3000
  }

  /** Lower-casing keeps every character's whitespace class, so the
      lower-cased text strips to nothing exactly when the text is all
      whitespace. */
  lemma LowerKeepsPySpace(text: string)
    ensures Strip(Lower(text), IsPySpace) == [] <==> forall i :: 0 <= i < |text| ==> IsPySpace(text[i])
  {
  }

  /** What stripping the lower-cased text gives: a lower-case text that
      occurs in the lower-cased input, with no whitespace at either end,
      empty exactly when the input is all whitespace. */
  lemma StripLowerFacts(text: string)
    ensures var r := Strip(Lower(text), IsPySpace);
            && Lower(r) == r
            && Contains(Lower(text), r)
            && (r == [] <==> forall i :: 0 <= i < |text| ==> IsPySpace(text[i]))
  {
    StripOfLowercase(text, IsPySpace);
    StripIsContained(Lower(text), IsPySpace);
    LowerKeepsPySpace(text);
  }

  /** `text.lower().strip()`, with ASCII lower-casing: the slice of the
      lower-cased input between its leading and its trailing whitespace. It
      is lower-case, has no whitespace at either end, and is empty exactly
      when the input is all whitespace. */
  function Normalize(text: string): (r: string)
    ensures Lower(r) == r
    ensures |r| <= |text|
    ensures StrippedSlice(Lower(text), IsPySpace, r)
    ensures Contains(Lower(text), r)
    ensures r != [] ==> !IsPySpace(r[0]) && !IsPySpace(r[|r| - 1])
    ensures r == [] <==> forall i :: 0 <= i < |text| ==> IsPySpace(text[i])
  {
    StripIsStrippedSlice(Lower(text), IsPySpace);
    StripLowerFacts(text);
    Strip(Lower(text), IsPySpace)
  }

  /** `_determine_type`: income exactly when an income word occurs; the
      expense-word test and the default both answer expense. */
  function DetermineType(text: string): (r: TxType)
    ensures r == Income <==> exists i :: 0 <= i < |IncomeWords| && Contains(text, IncomeWords[i])
    ensures r == Income || r == Expense
  {
    if AnyContains(text, IncomeWords) then Income
    else if AnyContains(text, ExpenseWords) then Expense
    else Expense
  }

  /** The expense word "paid for" never decides the type: it contains the
      income word "paid", which is tested first. */
  lemma PaidForMeansIncome(text: string)
    requires Contains(text, "paid for")
    ensures DetermineType(text) == Income
  {
    ContainsPrefix(text, "paid for", "paid");
    assert Contains(text, IncomeWords[1]);
  }

  /** Index of the first table entry that has a keyword occurring in text. */
  function FirstMatch(text: string, table: seq<Category>): (r: Option<nat>)
    ensures r.None? <==> forall i :: 0 <= i < |table| ==> !AnyContains(text, table[i].keywords)
    ensures r.Some? ==> r.value < |table| && AnyContains(text, table[r.value].keywords)
    ensures r.Some? ==> forall j :: 0 <= j < r.value ==> !AnyContains(text, table[j].keywords)
  {
    if |table| == 0 then None
    else if AnyContains(text, table[0].keywords) then Some(0)
    else
      match FirstMatch(text, table[1..])
      case None => None
      case Some(i) => Some(i + 1)
  }

  /** `_determine_category`: lower-cases, then answers the first category in
      table order with a keyword in the text, or "other" when none has. */
  function DetermineCategory(text: string): (r: string)
    ensures r == "other" <==> forall i :: 0 <= i < |Categories| ==> !AnyContains(Lower(text), Categories[i].keywords)
    ensures r != "other" ==>
              exists i :: 0 <= i < |Categories| && Categories[i].name == r
                          && AnyContains(Lower(text), Categories[i].keywords)
                          && forall j :: 0 <= j < i ==> !AnyContains(Lower(text), Categories[j].keywords)
  {
    match FirstMatch(Lower(text), Categories)
    case Some(i) => Categories[i].name
    case None => OtherCategory
  }

  /** Table order breaks ties: a text mentioning lunch is food, whatever
      else it mentions ("received" included), because food comes first. */
  lemma LunchIsFood(text: string)
    requires Contains(Lower(text), "lunch")
    ensures DetermineCategory(text) == "food"
  {
  }

  /** The category ignores letter case: texts equal up to case get the same
      category, and lower-casing first changes nothing. */
  lemma CategoryIgnoresCase(a: string, b: string)
    requires Lower(a) == Lower(b)
    ensures DetermineCategory(a) == DetermineCategory(b)
    ensures DetermineCategory(Lower(a)) == DetermineCategory(a)
  {
    LowerIdempotent(a);
  }

  /** The record `parse` returns. */
  datatype Parsed = Parsed(amount: int, kind: TxType, category: string, description: string, rawText: string)

  /** `parse`: the raw text is kept as typed; amount, type and category are
      computed from the lower-cased, stripped text; the description from the
      original text. */
  function Parse(text: string, extractAmount: string -> int, cleanDescription: string -> string): (r: Parsed)
    ensures r.rawText == text
    ensures r.amount == extractAmount(Normalize(text))
    ensures r.description == cleanDescription(text)
    ensures r.kind == DetermineType(Normalize(text))
    ensures r.kind == Income <==> exists i :: 0 <= i < |IncomeWords| && Contains(Normalize(text), IncomeWords[i])
    ensures r.kind == Income || r.kind == Expense
    ensures r.category == DetermineCategory(Normalize(text))
  {
    var normalized := Normalize(text);
    Parsed(extractAmount(normalized), DetermineType(normalized), DetermineCategory(normalized),
           cleanDescription(text), text)
  }

  /** A text that mentions both lunch and received is an income in the food
      category. */
  lemma LunchReceivedIsFoodIncome(text: string, extractAmount: string -> int, cleanDescription: string -> string)
    requires Contains(Normalize(text), "lunch") && Contains(Normalize(text), "received")
    ensures Parse(text, extractAmount, cleanDescription).kind == Income
    ensures Parse(text, extractAmount, cleanDescription).category == "food"
  {
    var n := Normalize(text);
    assert Contains(n, IncomeWords[0]);
    LunchIsFood(n);
  }

  /** Type and category of a parsed record ignore letter case. */
  lemma ParseIgnoresCase(a: string, b: string, extractAmount: string -> int, cleanDescription: string -> string)
    requires Lower(a) == Lower(b)
    ensures Parse(a, extractAmount, cleanDescription).kind == Parse(b, extractAmount, cleanDescription).kind
    ensures Parse(a, extractAmount, cleanDescription).category == Parse(b, extractAmount, cleanDescription).category
  {
  }
}
