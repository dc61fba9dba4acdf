/** The rewrite of the legacy scope of an external token (expandLegacyEventsWriteScope of internal/idp/idp.go). */
module Scopes {
  import opened Common
  import opened Text

  const LEGACY := "events.write"
  const REPLACEMENTS := ["events.manage", "events.operate", "events.report"]

  lemma LegacyIsReplaced()
    ensures IsWord(LEGACY) && LEGACY !in REPLACEMENTS
    ensures forall i :: 0 <= i < |REPLACEMENTS| ==> IsWord(REPLACEMENTS[i])
  {
    assert LEGACY[7] == 'w' && REPLACEMENTS[0][7] == 'm' && REPLACEMENTS[1][7] == 'o' && REPLACEMENTS[2][7] == 'r';
  }

  /** The fields with every occurrence of the legacy scope replaced, repetitions and all. */
  function Replaced(fields: seq<string>): seq<string> {
    if fields == [] then []
    else Replaced(fields[..|fields| - 1])
         + (if fields[|fields| - 1] == LEGACY then REPLACEMENTS else [fields[|fields| - 1]])
  }

  /** The first occurrence of every element. */
  function FirstOccurrences(s: seq<string>): seq<string> {
    if s == [] then []
    else AppendNew(FirstOccurrences(s[..|s| - 1]), s[|s| - 1])
  }

  function AppendNew(s: seq<string>, x: string): seq<string> {
    if x in s then s else s + [x]
  }

  function Expanded(scope: string): string {
    if LEGACY !in Fields(scope) then scope else Join(FirstOccurrences(Replaced(Fields(scope))), ' ')
  }

  method ExpandLegacyEventsWriteScope(scope: string) returns (result: string)
    ensures result == Expanded(scope)
  {
    var fields := Fields(scope);
    if LEGACY !in fields {
      return scope;
    }
    var expanded := [];
    for i := 0 to |fields|
      invariant expanded == FirstOccurrences(Replaced(fields[..i]))
    {
      assert fields[..i + 1][..i] == fields[..i];
      expanded := AppendEachNew(Replaced(fields[..i]), expanded, if fields[i] == LEGACY then REPLACEMENTS else [fields[i]]);
    }
    assert fields[..|fields|] == fields;
    return Join(expanded, ' ');
  }

  /** The inner loop: append whichever of the replacements is not there yet. */
  method AppendEachNew(ghost done: seq<string>, kept: seq<string>, replacements: seq<string>) returns (expanded: seq<string>)
    requires kept == FirstOccurrences(done)
    ensures expanded == FirstOccurrences(done + replacements)
  {
    expanded := kept;
    assert done + replacements[..0] == done;
    for j := 0 to |replacements|
      invariant expanded == FirstOccurrences(done + replacements[..j])
    {
      ghost var longer := done + replacements[..j + 1];
      assert longer[..|longer| - 1] == done + replacements[..j];
      if replacements[j] !in expanded {
        expanded := expanded + [replacements[j]];
      }
    }
    assert done + replacements[..|replacements|] == done + replacements;
  }

  lemma {:induction false} FirstOccurrencesDistinct(s: seq<string>)
    ensures Distinct(FirstOccurrences(s)) && Elements(FirstOccurrences(s)) == Elements(s)
  {
    if s != [] {
      var front, last := s[..|s| - 1], s[|s| - 1];
      FirstOccurrencesDistinct(front);
      assert s == front + [last];
      assert Elements(s) == Elements(front) + {last};
      var kept := FirstOccurrences(front);
      assert last in kept <==> last in Elements(kept);
      assert Elements(kept + [last]) == Elements(kept) + {last};
    }
  }

  /** Where an element of a sequence stands first. */
  function FirstIndex(s: seq<string>, x: string): (i: nat)
    requires x in s
    ensures i < |s| && s[i] == x && x !in s[..i]
  {
    if s[0] == x then 0 else
    var rest := s[1..];
    assert s == [s[0]] + rest;
    var n := FirstIndex(rest, x);
    assert s[..n + 1] == [s[0]] + rest[..n];
    n + 1
  }

  lemma FirstIndexUnique(s: seq<string>, x: string, i: nat)
    requires i < |s| && s[i] == x && x !in s[..i]
    ensures x in s && FirstIndex(s, x) == i
  {
    var n := FirstIndex(s, x);
    assert forall k :: 0 <= k < i ==> s[k] in s[..i];
    assert forall k :: 0 <= k < n ==> s[k] in s[..n];
  }

  /** What is kept stands in the order of first occurrence. */
  lemma {:induction false} FirstOccurrencesInOrder(s: seq<string>, i: nat, j: nat)
    requires i < j < |FirstOccurrences(s)|
    ensures var kept := FirstOccurrences(s);
            kept[i] in s && kept[j] in s && FirstIndex(s, kept[i]) < FirstIndex(s, kept[j])
  {
    var front, last := s[..|s| - 1], s[|s| - 1];
    var kept, before := FirstOccurrences(s), FirstOccurrences(front);
    FirstOccurrencesDistinct(front);
    FirstOccurrencesDistinct(s);
    assert kept[i] in Elements(kept) && kept[j] in Elements(kept);
    assert kept[i] in Elements(before) && kept[i] in front;
    var first := FirstIndex(front, kept[i]);
    assert s[..first] == front[..first];
    FirstIndexUnique(s, kept[i], first);
    if j < |before| {
      FirstOccurrencesInOrder(front, i, j);
      var second := FirstIndex(front, kept[j]);
      assert s[..second] == front[..second];
      FirstIndexUnique(s, kept[j], second);
    } else {
      assert last !in Elements(before);
      assert last !in Elements(front);
      FirstIndexUnique(s, last, |front|);
    }
  }

  lemma {:induction false} ReplacedElements(fields: seq<string>)
    ensures Elements(Replaced(fields)) ==
            (Elements(fields) - {LEGACY}) + (if LEGACY in fields then Elements(REPLACEMENTS) else {})
  {
    if fields != [] {
      var front, last := fields[..|fields| - 1], fields[|fields| - 1];
      ReplacedElements(front);
      assert fields == front + [last];
      assert Elements(fields) == Elements(front) + {last};
      var more := if last == LEGACY then REPLACEMENTS else [last];
      assert Elements(Replaced(front) + more) == Elements(Replaced(front)) + Elements(more);
    }
  }

  /** Every field is replaced where it stands: the legacy scope by the three, any other by itself. */
  lemma {:induction false} ReplacedInPlace(before: seq<string>, field: string, after: seq<string>)
    ensures Replaced(before + [field] + after) ==
            Replaced(before)
            + (if field == "events.write" then ["events.manage", "events.operate", "events.report"] else [field])
            + Replaced(after)
    decreases |after|
  {
    var all := before + [field] + after;
    if after == [] {
      assert all[..|all| - 1] == before && all[|all| - 1] == field;
    } else {
      var front, last := after[..|after| - 1], after[|after| - 1];
      assert all[..|all| - 1] == before + [field] + front && all[|all| - 1] == last;
      ReplacedInPlace(before, field, front);
    }
  }

  /**
   When the legacy scope is among the fields, the fields of the result are distinct, stand in the order of
   first occurrence, and form the other fields together with the three replacements.
   */
  lemma ExpandedFields(scope: string)
    requires LEGACY in Fields(scope)
    ensures var result := Fields(Expanded(scope));
            && result == FirstOccurrences(Replaced(Fields(scope)))
            && Distinct(result)
            && Elements(result) == (Elements(Fields(scope)) - {LEGACY}) + Elements(REPLACEMENTS)
  {
    var fields := Fields(scope);
    var kept := FirstOccurrences(Replaced(fields));
    FieldsAreWords(scope);
    LegacyIsReplaced();
    ReplacedElements(fields);
    FirstOccurrencesDistinct(Replaced(fields));
    forall i | 0 <= i < |kept| ensures IsWord(kept[i]) {
      assert kept[i] in Elements(kept);
      assert kept[i] in fields || kept[i] in REPLACEMENTS;
    }
    FieldsOfJoin(kept);
  }

  /** Rewriting twice is rewriting once. */
  lemma ExpandedTwice(scope: string)
    ensures Expanded(Expanded(scope)) == Expanded(scope)
  {
    if LEGACY in Fields(scope) {
      ExpandedFields(scope);
      LegacyIsReplaced();
      assert LEGACY !in Elements(Fields(Expanded(scope)));
    }
  }

  /** The scope check of the public listener. */
  predicate Grants(scope: string, required: seq<string>) {
    forall i :: 0 <= i < |required| ==> required[i] in Fields(scope)
  }

  /**
   The rewritten scope grants a list exactly when every entry is granted by the original scope or is one of the
   replacements, and none is the legacy scope itself. So the rewrite only ever takes away the legacy scope.
   */
  lemma ExpandedGrants(scope: string, required: seq<string>)
    requires LEGACY in Fields(scope)
    ensures Grants(Expanded(scope), required) <==>
            forall i :: 0 <= i < |required| ==>
              required[i] != LEGACY && (required[i] in Fields(scope) || required[i] in REPLACEMENTS)
    ensures Grants(scope, required) && LEGACY !in required ==> Grants(Expanded(scope), required)
    ensures Grants(scope, required) ==> (Grants(Expanded(scope), required) <==> LEGACY !in required)
  {
    ExpandedFields(scope);
    LegacyIsReplaced();
    var result := Fields(Expanded(scope));
    assert forall x :: x in result <==> x in Elements(result);
    assert forall x :: x in Fields(scope) <==> x in Elements(Fields(scope));
    assert forall x :: x in REPLACEMENTS <==> x in Elements(REPLACEMENTS);
  }
}
