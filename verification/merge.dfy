/** Category-wise merge of permission policies (merge_permissions in
    permission-guardian/scripts/generate_permissions.py) and the decision in `main`
    whether to merge into the persisted policy or replace it. */
module PolicyMerge {
  import opened Seqs
  import opened Wrappers

  /** A permission rule is an opaque command pattern, compared only for equality. */
  type Rule = string

  /** A `permissions` object: key -> ordered list of rules. Besides the three categories a
      persisted object may carry keys of its own, which a merge passes through. */
  type Policy = map<string, seq<Rule>>

  const Allow: string := "allow"
  const Ask: string := "ask"
  const Deny: string := "deny"

  /** The categories a merge visits; no other key is ever created or extended. */
  const Categories: set<string> := {Allow, Ask, Deny}

  /** The rules stored under `k`, or none when the key is absent. */
  function Get(p: Policy, k: string): seq<Rule> {
    if k in p then p[k] else []
  }

  /** `p` with every absent category present and empty: what a merge makes of a policy
      whose rules it does not change. */
  function Normalize(p: Policy): Policy {
    map k | k in p.Keys + Categories :: Get(p, k)
  }

  /** Reference definition of what a merge appends to one category: the first occurrence of
      every incoming rule that the existing list does not hold, in incoming order. */
  function NewRules(existing: seq<Rule>, incoming: seq<Rule>): seq<Rule>
    decreases |incoming|
  {
    if |incoming| == 0 then []
    else
      var earlier := incoming[..|incoming| - 1];
      var rule := incoming[|incoming| - 1];
      NewRules(existing, earlier) + (if rule in existing || rule in earlier then [] else [rule])
  }

  lemma {:induction false} NewRulesMembership(existing: seq<Rule>, incoming: seq<Rule>)
    ensures forall x :: x in NewRules(existing, incoming) <==> x in incoming && x !in existing
    decreases |incoming|
  {
    if |incoming| > 0 {
      var earlier := incoming[..|incoming| - 1];
      NewRulesMembership(existing, earlier);
      assert incoming == earlier + [incoming[|incoming| - 1]];
    }
  }

  lemma {:induction false} NewRulesNoDup(existing: seq<Rule>, incoming: seq<Rule>)
    ensures NoDup(NewRules(existing, incoming))
    decreases |incoming|
  {
    if |incoming| > 0 {
      var earlier := incoming[..|incoming| - 1];
      var rule := incoming[|incoming| - 1];
      NewRulesNoDup(existing, earlier);
      NewRulesMembership(existing, earlier);
      if !(rule in existing || rule in earlier) {
        NoDupSnoc(NewRules(existing, earlier), rule);
      }
    }
  }

  /** The loop at lines 131-134 for one category: each incoming rule, in order, is appended
      unless the list built so far already holds it. The recursion peels off the last
      incoming rule, so `MergeRules(existing, incoming[..i])` is the list after `i` steps. */
  function MergeRules(existing: seq<Rule>, incoming: seq<Rule>): (merged: seq<Rule>)
    ensures merged == existing + NewRules(existing, incoming)
    decreases |incoming|
  {
    if |incoming| == 0 then existing
    else
      var prev := MergeRules(existing, incoming[..|incoming| - 1]);
      var rule := incoming[|incoming| - 1];
      NewRulesMembership(existing, incoming[..|incoming| - 1]);
      if rule in prev then prev else prev + [rule]
  }

  /** The merged list keeps the existing list as an unchanged prefix, holds every incoming
      rule, holds nothing else, and appends only rules that were not there already, once. */
  lemma MergeRulesSpec(existing: seq<Rule>, incoming: seq<Rule>)
    ensures var merged := MergeRules(existing, incoming);
      && |existing| <= |merged|
      && merged[..|existing|] == existing
      && (forall x :: x in incoming ==> x in merged)
      && (forall x :: x in merged ==> x in existing || x in incoming)
      && (forall x :: x in merged[|existing|..] ==> x !in existing)
      && NoDup(merged[|existing|..])
      && (NoDup(existing) ==> NoDup(merged))
  {
    var merged := MergeRules(existing, incoming);
    var added := NewRules(existing, incoming);
    assert merged[|existing|..] == added;
    NewRulesMembership(existing, incoming);
    NewRulesNoDup(existing, incoming);
    if NoDup(existing) {
      forall i, j | 0 <= i < j < |merged|
        ensures merged[i] != merged[j]
      {
        if j >= |existing| {
          if i < |existing| {
            assert merged[i] in existing;
            assert merged[j] in added;
          } else {
            assert merged[i] == added[i - |existing|];
            assert merged[j] == added[j - |existing|];
          }
        }
      }
    }
  }

  /** Merging a list in two pieces is merging it at once: the loop state carries over. */
  lemma {:induction false} MergeRulesAppend(existing: seq<Rule>, first: seq<Rule>, second: seq<Rule>)
    ensures MergeRules(existing, first + second) == MergeRules(MergeRules(existing, first), second)
    decreases |second|
  {
    if |second| == 0 {
      assert first + second == first;
    } else {
      var init := second[..|second| - 1];
      assert (first + second)[..|first + second| - 1] == first + init;
      assert (first + second)[|first + second| - 1] == second[|second| - 1];
      MergeRulesAppend(existing, first, init);
    }
  }

  /** A duplicate-free list is its own list of first occurrences. */
  lemma {:induction false} NewRulesDistinct(rules: seq<Rule>)
    requires NoDup(rules)
    ensures NewRules([], rules) == rules
    decreases |rules|
  {
    if |rules| > 0 {
      NoDupInit(rules);
      NewRulesDistinct(rules[..|rules| - 1]);
    }
  }

  /** Incoming rules that are all present already add nothing. */
  lemma {:induction false} NewRulesCovered(existing: seq<Rule>, incoming: seq<Rule>)
    requires forall x :: x in incoming ==> x in existing
    ensures NewRules(existing, incoming) == []
    decreases |incoming|
  {
    if |incoming| > 0 {
      NewRulesCovered(existing, incoming[..|incoming| - 1]);
      assert incoming[|incoming| - 1] in incoming;
    }
  }

  /** Incoming rules that are all present already change nothing. */
  lemma MergeRulesCovered(existing: seq<Rule>, incoming: seq<Rule>)
    requires forall x :: x in incoming ==> x in existing
    ensures MergeRules(existing, incoming) == existing
  {
    NewRulesCovered(existing, incoming);
  }

  /** Once everything in `b` is present, merging `c` is the same as merging only the part of
      `c` that merging `c` after `b` would have added. */
  lemma {:induction false} MergeRulesAbsorb(r: seq<Rule>, b: seq<Rule>, c: seq<Rule>)
    requires forall x :: x in b ==> x in r
    ensures MergeRules(r, c) == MergeRules(r, NewRules(b, c))
    decreases |c|
  {
    if |c| > 0 {
      var init := c[..|c| - 1];
      var rule := c[|c| - 1];
      MergeRulesAbsorb(r, b, init);
      var prev := MergeRules(r, init);
      var added := NewRules(b, init);
      assert MergeRules(r, c) == if rule in prev then prev else prev + [rule];
      if rule in b || rule in init {
        assert NewRules(b, c) == added;
        NewRulesMembership(r, init);
        assert rule in prev;
      } else {
        assert NewRules(b, c) == added + [rule];
        assert (added + [rule])[..|added + [rule]| - 1] == added;
        assert MergeRules(r, added + [rule]) == if rule in prev then prev else prev + [rule];
      }
    }
  }

  /** Rules that already occurred earlier can be dropped from the incoming list. */
  lemma NewRulesSkipCovered(before: seq<Rule>, again: seq<Rule>, after: seq<Rule>)
    requires forall x :: x in again ==> x in before
    ensures NewRules([], before + again + after) == NewRules([], before + after)
  {
    var seen := MergeRules([], before);
    MergeRulesSpec([], before);
    MergeRulesCovered(seen, again);
    MergeRulesAppend([], before, again);
    assert MergeRules([], before + again) == seen;
    MergeRulesAppend([], before + again, after);
    MergeRulesAppend([], before, after);
    assert MergeRules([], before + again + after) == MergeRules([], before + after);
    assert [] + NewRules([], before + again + after) == NewRules([], before + again + after);
    assert [] + NewRules([], before + after) == NewRules([], before + after);
  }

  /** Per-category merging is associative. */
  lemma MergeRulesAssociative(a: seq<Rule>, b: seq<Rule>, c: seq<Rule>)
    ensures MergeRules(MergeRules(a, b), c) == MergeRules(a, MergeRules(b, c))
  {
    MergeRulesAppend(a, b, NewRules(b, c));
    MergeRulesSpec(a, b);
    MergeRulesAbsorb(MergeRules(a, b), b, c);
  }

  /** Two policies over the categories only, with no empty category, are equal when every
      category holds the same rules. */
  lemma SameCategories(p: Policy, q: Policy)
    requires p.Keys <= Categories && q.Keys <= Categories
    requires forall k :: k in p ==> |p[k]| > 0
    requires forall k :: k in q ==> |q[k]| > 0
    requires forall k :: k in Categories ==> Get(p, k) == Get(q, k)
    ensures p == q
  {
    forall k | k in p
      ensures k in q
    {
      assert Get(q, k) == p[k];
    }
    forall k | k in q
      ensures k in p
    {
      assert Get(p, k) == q[k];
    }
  }

  /** merge_permissions (lines 120-136): every category is present in the result, holding
      the existing rules followed by the new incoming ones; other keys of `existing` are
      carried over and other keys of `incoming` are never read. */
  function Merge(existing: Policy, incoming: Policy): (merged: Policy)
    ensures merged.Keys == existing.Keys + Categories
    ensures forall k :: k in existing && k !in Categories ==> merged[k] == existing[k]
    ensures forall k :: k in Categories ==>
      merged[k] == Get(existing, k) + NewRules(Get(existing, k), Get(incoming, k))
  {
    map k | k in existing.Keys + Categories ::
      if k in Categories then MergeRules(Get(existing, k), Get(incoming, k)) else existing[k]
  }

  /** Only the three categories of the incoming object are read. */
  lemma MergeIgnoresForeignKeys(existing: Policy, incoming: Policy, incoming': Policy)
    requires forall k :: k in Categories ==> Get(incoming, k) == Get(incoming', k)
    ensures Merge(existing, incoming) == Merge(existing, incoming')
  {
  }

  /** Merging a policy into itself only fills in absent categories. */
  lemma MergeIdempotent(p: Policy)
    ensures Merge(p, p) == Normalize(p)
  {
    forall k | k in Categories
      ensures Merge(p, p)[k] == Get(p, k)
    {
      NewRulesCovered(Get(p, k), Get(p, k));
    }
  }

  /** Merging an empty object only fills in absent categories. */
  lemma MergeEmpty(p: Policy)
    ensures Merge(p, map[]) == Normalize(p)
  {
  }

  /** The whole merge is associative, not only per category. */
  lemma MergeAssociative(a: Policy, b: Policy, c: Policy)
    ensures Merge(Merge(a, b), c) == Merge(a, Merge(b, c))
  {
    forall k | k in Categories
      ensures Merge(Merge(a, b), c)[k] == Merge(a, Merge(b, c))[k]
    {
      MergeRulesAssociative(Get(a, k), Get(b, k), Get(c, k));
    }
  }

  /** A category without duplicates stays without duplicates. */
  lemma MergeNoDup(existing: Policy, incoming: Policy, k: string)
    requires k in Categories && NoDup(Get(existing, k))
    ensures NoDup(Merge(existing, incoming)[k])
  {
    MergeRulesSpec(Get(existing, k), Get(incoming, k));
  }

  /** Lines 216-221 of `main`: the freshly generated policy is merged into the persisted
      `permissions` object when the settings have one, and replaces it otherwise. */
  function Finalize(persisted: Option<Policy>, generated: Policy): (final: Policy)
    ensures persisted.None? ==> final == generated
    ensures forall k :: k in Categories ==> forall x :: x in Get(generated, k) ==> x in Get(final, k)
    ensures persisted.Some? ==> forall k :: k in Categories ==>
      |Get(persisted.value, k)| <= |Get(final, k)| && Get(final, k)[..|Get(persisted.value, k)|] == Get(persisted.value, k)
    ensures persisted.Some? ==> final.Keys == persisted.value.Keys + Categories
    ensures persisted.Some? ==> forall k :: k in persisted.value && k !in Categories ==> final[k] == persisted.value[k]
    ensures persisted.Some? ==> forall k :: k in Categories ==>
      final[k] == Get(persisted.value, k) + NewRules(Get(persisted.value, k), Get(generated, k))
  {
    match persisted
    case None => generated
    case Some(existing) =>
      forall k | k in Categories
        ensures forall x :: x in Get(generated, k) ==> x in Get(Merge(existing, generated), k)
      {
        MergeRulesSpec(Get(existing, k), Get(generated, k));
      }
      Merge(existing, generated)
  }
}
