/** The automation-rules tab: a fixed list of rules held in client state,
    each with an on/off switch. */
module Rules {

  datatype Rule = Rule(id: int, name: string, description: string, isActive: bool, icon: string)

  /** The initial state of the rules list. */
  const InitialRules: seq<Rule> := [
    Rule(1, "Low Balance Alert", "Alert when balance below TZS 50,000", true, "warning"),
    Rule(2, "Auto-Categorize M-Pesa", "Parse M-Pesa SMS automatically", true, "sms"),
    Rule(3, "Weekly Spending Report", "Send report every Sunday", false, "assessment"),
    Rule(4, "Save 10% of Income", "Auto-save to virtual envelope", true, "savings"),
    Rule(5, "Food Budget Limit", "Alert when food spending > TZS 100,000/month", true, "restaurant")
  ]

  /** `toggleRule`: every rule whose id matches has its switch flipped; all
      other rules, and every other field, stay as they were. */
  function ToggleRule(rules: seq<Rule>, id: int): (r: seq<Rule>)
    ensures |r| == |rules|
    ensures forall i :: 0 <= i < |rules| ==>
              && r[i].id == rules[i].id
              && r[i].name == rules[i].name
              && r[i].description == rules[i].description
              && r[i].icon == rules[i].icon
              && (r[i].isActive != rules[i].isActive <==> rules[i].id == id)
  {
    if |rules| == 0 then []
    else
      var head := rules[0];
      var head' := if head.id == id then head.(isActive := !head.isActive) else head;
      [head'] + ToggleRule(rules[1..], id)
  }

  /** Toggling an id that no rule has leaves the list unchanged. */
  lemma ToggleAbsentId(rules: seq<Rule>, id: int)
    requires forall i :: 0 <= i < |rules| ==> rules[i].id != id
    ensures ToggleRule(rules, id) == rules
  {
  }

  /** Toggling the same id twice restores the original list. */
  lemma ToggleTwice(rules: seq<Rule>, id: int)
    ensures ToggleRule(ToggleRule(rules, id), id) == rules
  {
  }

  /** Toggles of different ids commute. */
  lemma ToggleCommutes(rules: seq<Rule>, a: int, b: int)
    ensures ToggleRule(ToggleRule(rules, a), b) == ToggleRule(ToggleRule(rules, b), a)
  {
  }

  /** The initial list: five rules with ids 1 to 5, of which only rule 3 is off. */
  lemma InitialRulesShape()
    ensures |InitialRules| == 5
    ensures forall i :: 0 <= i < 5 ==> InitialRules[i].id == i + 1
    ensures forall i :: 0 <= i < 5 ==> (InitialRules[i].isActive <==> InitialRules[i].id != 3)
  {
  }
}
