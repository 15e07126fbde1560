/**
 The label post-processing primitive shared by both request handlers of the
 workout scanner: the vision service's ordered list of (Name, Confidence)
 labels is optionally renamed through an alias table, then kept or dropped by
 a vocabulary test and an exclusion test. Rendering to the client's format is
 done by each flow.
 */
module LabelFilter {

  /** One label as returned by the vision service. */
  datatype Label = Label(name: string, confidence: real)

  /** `alias[name] || name`: a name that is a key of the alias table is
      replaced by its alias, unless that alias is the empty (falsy) string;
      any other name passes through unchanged. */
  function Resolve(alias: map<string, string>, name: string): (r: string)
    ensures r == name || (name in alias && r == alias[name])
    ensures name !in alias ==> r == name
    ensures r == "" ==> name == ""
  {
    if name in alias && alias[name] != "" then alias[name] else name
  }

  /** The resolved form of one label: same confidence, resolved name. */
  function ResolveLabel(l: Label, alias: map<string, string>): (r: Label)
  {
    Label(Resolve(alias, l.name), l.confidence)
  }

  /** The `.map(...)` step: every label renamed through the alias table,
      one entry per input label, in input order. */
  function ResolveAll(labels: seq<Label>, alias: map<string, string>): (r: seq<Label>)
    ensures |r| == |labels|
    ensures forall i :: 0 <= i < |labels| ==> r[i] == ResolveLabel(labels[i], alias)
  {
    if labels == [] then []
    else [ResolveLabel(labels[0], alias)] + ResolveAll(labels[1..], alias)
  }

  /** The keep test of the `.filter(...)` step. */
  predicate Admitted(name: string, vocab: seq<string>, excl: seq<string>)
  {
    name in vocab && name !in excl
  }

  /** The `.filter(...)` step: the labels whose name passes the keep test, in
      input order, each kept label once per occurrence. */
  function Select(labels: seq<Label>, vocab: seq<string>, excl: seq<string>): (r: seq<Label>)
    ensures |r| <= |labels|
    ensures forall k :: 0 <= k < |r| ==> r[k] in labels && Admitted(r[k].name, vocab, excl)
  {
    if labels == [] then []
    else if Admitted(labels[0].name, vocab, excl) then
      [labels[0]] + Select(labels[1..], vocab, excl)
    else
      Select(labels[1..], vocab, excl)
  }

  /** Alias resolution followed by the vocabulary and exclusion filter. */
  function Pipeline(labels: seq<Label>, vocab: seq<string>, alias: map<string, string>,
                    excl: seq<string>): (r: seq<Label>)
    ensures |r| <= |labels|
    ensures forall k :: 0 <= k < |r| ==> Admitted(r[k].name, vocab, excl)
  {
    Select(ResolveAll(labels, alias), vocab, excl)
  }

  /** `idx` lists, strictly increasing, the positions of `labels` that `r` picks. */
  ghost predicate PicksInOrder(labels: seq<Label>, r: seq<Label>, idx: seq<nat>)
  {
    && |idx| == |r|
    && (forall k :: 0 <= k < |idx| ==> idx[k] < |labels| && r[k] == labels[idx[k]])
    && (forall k, m :: 0 <= k < m < |idx| ==> idx[k] < idx[m])
  }

  /** Every position moved one place to the right. */
  function Shift(idx: seq<nat>): (s: seq<nat>)
    ensures |s| == |idx|
    ensures forall k :: 0 <= k < |idx| ==> s[k] == idx[k] + 1
  {
    seq(|idx|, k requires 0 <= k < |idx| => idx[k] + 1)
  }

  /** Positions picked in a tail are picked, one further right, in the whole. */
  lemma ShiftPicks(labels: seq<Label>, r: seq<Label>, t: seq<nat>)
    requires labels != [] && PicksInOrder(labels[1..], r, t)
    ensures PicksInOrder(labels, r, Shift(t))
    ensures PicksInOrder(labels, [labels[0]] + r, [0] + Shift(t))
    ensures 0 !in Shift(t)
    ensures forall i :: 1 <= i < |labels| ==> (i in Shift(t) <==> i - 1 in t)
  {
    var s := Shift(t);
    forall i | 1 <= i < |labels|
      ensures i in s <==> i - 1 in t
    {
      if i - 1 in t {
        var k :| 0 <= k < |t| && t[k] == i - 1;
        assert s[k] == i;
      }
    }
  }

  /** Select is a stable filter: its result is the subsequence of exactly the
      admitted positions, each taken once and in input order (no re-sorting,
      no de-duplication). */
  lemma {:induction false} SelectIndices(labels: seq<Label>, vocab: seq<string>, excl: seq<string>)
    returns (idx: seq<nat>)
    ensures PicksInOrder(labels, Select(labels, vocab, excl), idx)
    ensures forall i :: 0 <= i < |labels| ==> (i in idx <==> Admitted(labels[i].name, vocab, excl))
  {
    if labels == [] {
      idx := [];
    } else {
      var t := SelectIndices(labels[1..], vocab, excl);
      ShiftPicks(labels, Select(labels[1..], vocab, excl), t);
      if Admitted(labels[0].name, vocab, excl) {
        idx := [0] + Shift(t);
      } else {
        idx := Shift(t);
      }
      forall i | 1 <= i < |labels|
        ensures i in idx <==> Admitted(labels[i].name, vocab, excl)
      {
        assert labels[1..][i - 1] == labels[i];
      }
    }
  }

  /** Filtering a concatenation filters each part. */
  lemma {:induction false} SelectAppend(a: seq<Label>, b: seq<Label>, vocab: seq<string>, excl: seq<string>)
    ensures Select(a + b, vocab, excl) == Select(a, vocab, excl) + Select(b, vocab, excl)
  {
    if a == [] {
      assert a + b == b;
    } else {
      assert (a + b)[0] == a[0];
      assert (a + b)[1..] == a[1..] + b;
      SelectAppend(a[1..], b, vocab, excl);
      if Admitted(a[0].name, vocab, excl) {
        assert [a[0]] + (Select(a[1..], vocab, excl) + Select(b, vocab, excl))
            == ([a[0]] + Select(a[1..], vocab, excl)) + Select(b, vocab, excl);
      }
    }
  }

  /** Alias resolution distributes over concatenation. */
  lemma {:induction false} ResolveAllAppend(a: seq<Label>, b: seq<Label>, alias: map<string, string>)
    ensures ResolveAll(a + b, alias) == ResolveAll(a, alias) + ResolveAll(b, alias)
  {
    if a == [] {
      assert a + b == b;
    } else {
      assert (a + b)[0] == a[0];
      assert (a + b)[1..] == a[1..] + b;
      ResolveAllAppend(a[1..], b, alias);
    }
  }

  /** The pipeline of a concatenation is the pipeline of each part. */
  lemma PipelineAppend(a: seq<Label>, b: seq<Label>, vocab: seq<string>,
                       alias: map<string, string>, excl: seq<string>)
    ensures Pipeline(a + b, vocab, alias, excl)
         == Pipeline(a, vocab, alias, excl) + Pipeline(b, vocab, alias, excl)
  {
    ResolveAllAppend(a, b, alias);
    SelectAppend(ResolveAll(a, alias), ResolveAll(b, alias), vocab, excl);
  }

  /** A single label yields its resolved form when admitted, and nothing otherwise. */
  lemma PipelineSingle(l: Label, vocab: seq<string>, alias: map<string, string>, excl: seq<string>)
    ensures Pipeline([l], vocab, alias, excl)
         == if Admitted(ResolveLabel(l, alias).name, vocab, excl) then [ResolveLabel(l, alias)] else []
  {
    var rl := ResolveAll([l], alias);
    assert rl == [ResolveLabel(l, alias)];
    assert rl[1..] == [];
  }

  /** One label in the middle of the list contributes exactly its own resolved
      entry, or nothing, without disturbing its neighbours. */
  lemma PipelineAround(a: seq<Label>, l: Label, b: seq<Label>, vocab: seq<string>,
                       alias: map<string, string>, excl: seq<string>)
    ensures Admitted(ResolveLabel(l, alias).name, vocab, excl) ==>
      Pipeline(a + [l] + b, vocab, alias, excl)
        == Pipeline(a, vocab, alias, excl) + [ResolveLabel(l, alias)] + Pipeline(b, vocab, alias, excl)
    ensures !Admitted(ResolveLabel(l, alias).name, vocab, excl) ==>
      Pipeline(a + [l] + b, vocab, alias, excl) == Pipeline(a + b, vocab, alias, excl)
  {
    var pa, pl, pb := Pipeline(a, vocab, alias, excl), Pipeline([l], vocab, alias, excl),
                      Pipeline(b, vocab, alias, excl);
    PipelineAppend(a + [l], b, vocab, alias, excl);
    PipelineAppend(a, [l], vocab, alias, excl);
    PipelineSingle(l, vocab, alias, excl);
    if Admitted(ResolveLabel(l, alias).name, vocab, excl) {
      assert pl == [ResolveLabel(l, alias)];
    } else {
      assert pl == [];
      assert pa + pl == pa;
      PipelineAppend(a, b, vocab, alias, excl);
    }
  }

  /** An exclusion list sharing no name with the vocabulary never removes anything. */
  lemma {:induction false} SelectDisjointExclusion(labels: seq<Label>, vocab: seq<string>, excl: seq<string>)
    requires forall x :: x in excl ==> x !in vocab
    ensures Select(labels, vocab, excl) == Select(labels, vocab, [])
  {
    if labels != [] {
      SelectDisjointExclusion(labels[1..], vocab, excl);
    }
  }

  /** With an empty alias table the pipeline is the plain filter on raw names. */
  lemma NoAliasIsIdentity(labels: seq<Label>, vocab: seq<string>, excl: seq<string>)
    ensures Pipeline(labels, vocab, map[], excl) == Select(labels, vocab, excl)
  {
    assert ResolveAll(labels, map[]) == labels;
  }
}
