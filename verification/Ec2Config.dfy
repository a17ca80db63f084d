/** The instance type table of ec2_config.py: which type a job gets, and which to try next. */
module Ec2Config {
  import opened Options

  /** `limit`: jobs whose source has fewer bytes get this type; None for the last entry. */
  datatype Rule = Rule(limit: Option<nat>, instanceType: string)

  /** An entry `<size>:<type>` of the setting after its parts were parsed; None is `*`. */
  datatype Entry = Entry(limit: Option<nat>, instanceType: string)

  predicate Ascending(rules: seq<Rule>) {
    forall i, k :: 0 <= i < k < |rules| && rules[i].limit.Some? && rules[k].limit.Some? ==>
      rules[i].limit.value < rules[k].limit.value
  }

  /** What a table is: sizes ascend and exactly the last entry takes everything larger. */
  predicate Table(rules: seq<Rule>) {
    && rules != [] && Ascending(rules)
    && (forall i :: 0 <= i < |rules| ==> (rules[i].limit.None? <==> i == |rules| - 1))
  }

  predicate ValidEntries(entries: seq<Entry>) {
    && entries != []
    && (forall i :: 0 <= i < |entries| && entries[i].limit.None? ==> i == |entries| - 1)
    && (forall i :: 0 < i < |entries| && entries[i].limit.Some? && entries[i-1].limit.Some? ==>
          entries[i-1].limit.value < entries[i].limit.value)
  }

  method ParseInstanceTypes(entries: seq<Entry>) returns (rules: Option<seq<Rule>>)
    ensures rules.Some? <==> ValidEntries(entries)
    ensures rules.Some? ==> Table(rules.value) && |rules.value| == |entries|
    ensures rules.Some? ==> forall i :: 0 <= i < |entries| ==>
      && rules.value[i].instanceType == entries[i].instanceType
      && (i < |entries| - 1 ==> rules.value[i].limit == entries[i].limit)
  {
    var found: seq<Rule> := [];
    if entries == [] {
      return None;
    }
    for i := 0 to |entries|
      invariant |found| == i
      invariant forall k :: 0 <= k < i ==>
        found[k].limit == entries[k].limit && found[k].instanceType == entries[k].instanceType
      invariant forall k :: 0 <= k < i && entries[k].limit.None? ==> k == |entries| - 1
      invariant forall k :: 0 < k < i && entries[k].limit.Some? && entries[k-1].limit.Some? ==>
        entries[k-1].limit.value < entries[k].limit.value
      invariant Ascending(found)
    {
      var last := i == |entries| - 1;
      if entries[i].limit.None? {
        if !last {
          return None;
        }
      } else if i > 0 && entries[i].limit.value <= found[i-1].limit.value {
        return None;
      }
      found := found + [Rule(entries[i].limit, entries[i].instanceType)];
    }
    var n := |found|;
    if found[n-1].limit.Some? {
      found := found[n-1 := Rule(None, found[n-1].instanceType)];
    }
    return Some(found);
  }

  predicate FirstAbove(rules: seq<Rule>, size: nat, i: nat) {
    && i < |rules| && (rules[i].limit.None? || size < rules[i].limit.value)
    && (forall k :: 0 <= k < i ==> rules[k].limit.Some? && rules[k].limit.value <= size)
  }

  /** The type of the first rule above the size; of the last one if there is none or the size is unknown. */
  function Chosen(rules: seq<Rule>, size: Option<nat>): string
    requires rules != []
  {
    if size.None? || |rules| == 1 then rules[|rules| - 1].instanceType
    else if rules[0].limit.None? || size.value < rules[0].limit.value then rules[0].instanceType
    else Chosen(rules[1..], size)
  }

  lemma {:induction false} ChosenIsFirstAbove(rules: seq<Rule>, size: nat, i: nat)
    requires FirstAbove(rules, size, i)
    ensures Chosen(rules, Some(size)) == rules[i].instanceType
  {
    if i > 0 {
      assert FirstAbove(rules[1..], size, i - 1);
      ChosenIsFirstAbove(rules[1..], size, i - 1);
    }
  }

  lemma {:induction false} ChosenIsLast(rules: seq<Rule>, size: nat)
    requires rules != [] && forall k :: 0 <= k < |rules| ==> rules[k].limit.Some? && rules[k].limit.value <= size
    ensures Chosen(rules, Some(size)) == rules[|rules| - 1].instanceType
  {
    if |rules| > 1 {
      ChosenIsLast(rules[1..], size);
    }
  }

  /** In a table, the chosen rule is the one whose range of sizes holds the source. */
  lemma ChosenInTable(rules: seq<Rule>, size: nat, i: nat)
    requires Table(rules) && i < |rules|
    requires i > 0 ==> rules[i-1].limit.value <= size
    requires rules[i].limit.Some? ==> size < rules[i].limit.value
    ensures Chosen(rules, Some(size)) == rules[i].instanceType
  {
    ChosenIsFirstAbove(rules, size, i);
  }

  method ChooseInstanceType(rules: seq<Rule>, size: Option<nat>) returns (instanceType: string)
    requires rules != []
    ensures instanceType == Chosen(rules, size)
  {
    if size.Some? {
      for i := 0 to |rules|
        invariant forall k :: 0 <= k < i ==> rules[k].limit.Some? && rules[k].limit.value <= size.value
      {
        if rules[i].limit.None? || size.value < rules[i].limit.value {
          ChosenIsFirstAbove(rules, size.value, i);
          return rules[i].instanceType;
        }
      }
      ChosenIsLast(rules, size.value);
    }
    return rules[|rules| - 1].instanceType;
  }

  /** The types of the table, each once, in order. */
  function Types(rules: seq<Rule>): seq<string> {
    if rules == [] then [] else
      var before := Types(rules[..|rules| - 1]);
      var t := rules[|rules| - 1].instanceType;
      if t in before then before else before + [t]
  }

  function IndexOf(types: seq<string>, t: string): (i: nat)
    requires t in types
    ensures i < |types| && types[i] == t
  {
    if types[0] == t then 0 else 1 + IndexOf(types[1..], t)
  }

  function Fallback(rules: seq<Rule>, instanceType: string): Option<string> {
    var types := Types(rules);
    if instanceType !in types then (if types == [] then None else Some(types[0]))
    else
      var index := IndexOf(types, instanceType);
      if index + 1 < |types| then Some(types[index + 1])
      else if index > 0 then Some(types[index - 1]) else None
  }

  lemma {:induction false} TypesAreTheRules(rules: seq<Rule>)
    ensures forall t :: t in Types(rules) <==> exists i :: 0 <= i < |rules| && rules[i].instanceType == t
    ensures forall i, k :: 0 <= i < k < |Types(rules)| ==> Types(rules)[i] != Types(rules)[k]
  {
    if rules != [] {
      var n := |rules| - 1;
      TypesAreTheRules(rules[..n]);
      forall t
        ensures t in Types(rules) <==> exists i :: 0 <= i < |rules| && rules[i].instanceType == t
      {
        if t in Types(rules[..n]) {
          var i :| 0 <= i < n && rules[..n][i].instanceType == t;
          assert rules[i].instanceType == t;
        }
        if i :| 0 <= i < |rules| && rules[i].instanceType == t {
          if i < n { assert rules[..n][i].instanceType == t; }
        }
      }
    }
  }

  /** The fallback is another type of the table; there is none exactly if the table has no other. */
  lemma FallbackIsAnother(rules: seq<Rule>, t: string)
    ensures Fallback(rules, t).Some? ==> Fallback(rules, t).value != t
    ensures Fallback(rules, t).Some? ==>
      exists i :: 0 <= i < |rules| && rules[i].instanceType == Fallback(rules, t).value
    ensures Fallback(rules, t).None? <==> forall i :: 0 <= i < |rules| ==> rules[i].instanceType == t
  {
    TypesAreTheRules(rules);
    var types := Types(rules);
    if Fallback(rules, t).None? {
      forall i | 0 <= i < |rules|
        ensures rules[i].instanceType == t
      {
        assert rules[i].instanceType in types;
      }
    } else {
      assert Fallback(rules, t).value in types;
    }
  }

  method FallbackInstanceType(rules: seq<Rule>, instanceType: string) returns (next: Option<string>)
    ensures next == Fallback(rules, instanceType)
  {
    var types: seq<string> := [];
    for i := 0 to |rules|
      invariant types == Types(rules[..i])
    {
      assert rules[..i+1][..i] == rules[..i];
      if rules[i].instanceType !in types {
        types := types + [rules[i].instanceType];
      }
    }
    assert rules[..|rules|] == rules;
    if instanceType !in types {
      return if types == [] then None else Some(types[0]);
    }
    var index := IndexOf(types, instanceType);
    if index + 1 < |types| {
      return Some(types[index + 1]);
    }
    return if index > 0 then Some(types[index - 1]) else None;
  }
}
