// pkg/controlplane/client.go: reading limits out of a quota answer, where the
// most specific entry wins.
module Limits {
  import opened Prelude
  import opened Text

  // One entry: empty dimensions apply to everything; an entry without a value
  // carries no information.
  datatype Entry = Entry(region: string, model: string, value: Option<int>)

  // ---------- The reference reading ----------

  function Score(e: Entry): int {
    (if e.region != "" then 1 else 0) + (if e.model != "" then 2 else 0)
  }

  predicate Speaks(dimension: string, name: string) {
    dimension == "" || EqualFold(dimension, name)
  }

  // The entry says something about the target under key k.
  ghost predicate Applies(e: Entry, regions: seq<string>, models: seq<string>, k: string) {
    e.value.Some? && exists r, m :: AppliesTo(e, regions, models, k, r, m)
  }

  predicate AppliesTo(e: Entry, regions: seq<string>, models: seq<string>, k: string, r: string, m: string) {
    r in regions && m in models && Key(r, m) == k && Speaks(e.region, r) && Speaks(e.model, m)
  }

  // No entry that applies is more specific than entry i.
  ghost predicate IsTop(entries: seq<Entry>, regions: seq<string>, models: seq<string>, k: string, i: nat) {
    && i < |entries| && Applies(entries[i], regions, models, k)
    && forall j | 0 <= j < |entries| && Applies(entries[j], regions, models, k) :: Score(entries[j]) <= Score(entries[i])
  }

  // Entry i is the last of the most specific ones.
  ghost predicate Wins(entries: seq<Entry>, regions: seq<string>, models: seq<string>, k: string, i: nat) {
    && IsTop(entries, regions, models, k, i)
    && forall j | i < j < |entries| :: !IsTop(entries, regions, models, k, j)
  }

  ghost predicate WinsWith(entries: seq<Entry>, regions: seq<string>, models: seq<string>, k: string, i: nat, value: int) {
    Wins(entries, regions, models, k, i) && entries[i].value == Some(value)
  }

  // Every key has the value of its winning entry; only keys without one are
  // left out.
  ghost predicate Extracted(resp: map<string, int>, entries: seq<Entry>, regions: seq<string>, models: seq<string>) {
    && (forall k | k in resp :: exists i: nat :: WinsWith(entries, regions, models, k, i, resp[k]))
    && (forall k, i | 0 <= i < |entries| && Applies(entries[i], regions, models, k) :: k in resp)
  }

  // ---------- The loops ----------

  method Contains(list: seq<string>, s: string) returns (found: bool)
    ensures found <==> exists item :: item in list && EqualFold(item, s)
  {
    for i := 0 to |list|
      invariant forall j | 0 <= j < i :: !EqualFold(list[j], s)
    {
      if EqualFold(list[i], s) {
        return true;
      }
    }
    return false;
  }

  // What is recorded for a key: the specificity and the value of its entry.
  function Slot(resp: map<string, int>, spec: map<string, int>, k: string): Option<(int, int)> {
    if k in resp && k in spec then Some((spec[k], resp[k])) else None
  }

  function Put(slot: Option<(int, int)>, score: int, value: int): Option<(int, int)> {
    if slot.Some? && slot.value.0 > score then slot else Some((score, value))
  }

  // The keys in done have received the entry, the others have not.
  ghost predicate Updated(resp: map<string, int>, spec: map<string, int>, resp': map<string, int>, spec': map<string, int>,
                          done: set<string>, score: int, value: int) {
    && resp'.Keys == spec'.Keys
    && forall k :: Slot(resp', spec', k) == if k in done then Put(Slot(resp, spec, k), score, value) else Slot(resp, spec, k)
  }

  // One key, in the innermost loop.
  method SetOne(resp: map<string, int>, spec: map<string, int>, key: string, score: int, value: int)
    returns (resp': map<string, int>, spec': map<string, int>)
    requires resp.Keys == spec.Keys
    ensures Updated(resp, spec, resp', spec', {key}, score, value)
  {
    resp', spec' := resp, spec;
    if key in spec && spec[key] > score {
      return;
    }
    spec' := spec[key := score];
    resp' := resp[key := value];
  }

  lemma {:induction false} UpdatedTwice(resp: map<string, int>, spec: map<string, int>, resp1: map<string, int>, spec1: map<string, int>,
                                        resp2: map<string, int>, spec2: map<string, int>, a: set<string>, b: set<string>, score: int, value: int)
    requires Updated(resp, spec, resp1, spec1, a, score, value) && Updated(resp1, spec1, resp2, spec2, b, score, value)
    ensures Updated(resp, spec, resp2, spec2, a + b, score, value)
  {
    hide Slot;
  }

  method SetRow(resp: map<string, int>, spec: map<string, int>, region: string, models: seq<string>, score: int, value: int)
    returns (resp': map<string, int>, spec': map<string, int>)
    requires resp.Keys == spec.Keys
    ensures Updated(resp, spec, resp', spec', set m | m in models :: Key(region, m), score, value)
  {
    resp', spec' := resp, spec;
    ghost var done: set<string> := {};
    for j := 0 to |models|
      invariant Updated(resp, spec, resp', spec', done, score, value)
      invariant done == set m | m in models[..j] :: Key(region, m)
    {
      var key := Key(region, models[j]);
      ghost var (resp0, spec0) := (resp', spec');
      resp', spec' := SetOne(resp', spec', key, score, value);
      UpdatedTwice(resp, spec, resp0, spec0, resp', spec', done, {key}, score, value);
      assert models[..j + 1] == models[..j] + [models[j]];
      done := done + {key};
    }
    assert models[..|models|] == models;
  }

  method SetAll(resp: map<string, int>, spec: map<string, int>, regions: seq<string>, models: seq<string>, score: int, value: int)
    returns (resp': map<string, int>, spec': map<string, int>)
    requires resp.Keys == spec.Keys
    ensures Updated(resp, spec, resp', spec', set r, m | r in regions && m in models :: Key(r, m), score, value)
  {
    resp', spec' := resp, spec;
    ghost var done: set<string> := {};
    for i := 0 to |regions|
      invariant Updated(resp, spec, resp', spec', done, score, value)
      invariant done == set r, m | r in regions[..i] && m in models :: Key(r, m)
    {
      ghost var (resp0, spec0) := (resp', spec');
      ghost var row := set m | m in models :: Key(regions[i], m);
      resp', spec' := SetRow(resp', spec', regions[i], models, score, value);
      UpdatedTwice(resp, spec, resp0, spec0, resp', spec', done, row, score, value);
      assert regions[..i + 1] == regions[..i] + [regions[i]];
      done := done + row;
    }
    assert regions[..|regions|] == regions;
  }

  // names stands for the targets that an entry with this dimension speaks about.
  ghost predicate Expands(names: seq<string>, dimension: string, targets: seq<string>) {
    ExpandsAll(names, dimension, targets) && ExpandsOnly(names, dimension, targets)
  }

  ghost predicate ExpandsAll(names: seq<string>, dimension: string, targets: seq<string>) {
    forall t | t in targets && Speaks(dimension, t) :: exists n :: n in names && Lower(n) == Lower(t)
  }

  ghost predicate ExpandsOnly(names: seq<string>, dimension: string, targets: seq<string>) {
    forall n | n in names :: exists t :: t in targets && Speaks(dimension, t) && Lower(t) == Lower(n)
  }

  // The targets, or the entry's own name for a target; nothing if it is not one.
  method Expand(dimension: string, targets: seq<string>) returns (names: seq<string>, matched: bool)
    ensures Expands(names, dimension, targets)
    ensures !matched ==> names == []
  {
    if dimension == "" {
      return targets, true;
    }
    var found := Contains(targets, dimension);
    if !found {
      return [], false;
    }
    assert dimension in [dimension];
    return [dimension], true;
  }

  lemma {:induction false} AppliesCovered(e: Entry, rs: seq<string>, ms: seq<string>, regions: seq<string>, models: seq<string>, k: string)
    requires Applies(e, regions, models, k) && Expands(rs, e.region, regions) && Expands(ms, e.model, models)
    ensures k in set r, m | r in rs && m in ms :: Key(r, m)
  {
    hide Speaks, Lower, ExpandsOnly;
    var r, m :| AppliesTo(e, regions, models, k, r, m);
    var r' :| r' in rs && Lower(r') == Lower(r);
    var m' :| m' in ms && Lower(m') == Lower(m);
    assert Key(r', m') == k;
  }

  lemma {:induction false} CoveredApplies(e: Entry, rs: seq<string>, ms: seq<string>, regions: seq<string>, models: seq<string>, k: string)
    requires e.value.Some? && Expands(rs, e.region, regions) && Expands(ms, e.model, models)
    requires k in set r, m | r in rs && m in ms :: Key(r, m)
    ensures Applies(e, regions, models, k)
  {
    hide Speaks, Lower, ExpandsAll;
    var r, m :| r in rs && m in ms && Key(r, m) == k;
    var r' :| r' in regions && Speaks(e.region, r') && Lower(r') == Lower(r);
    var m' :| m' in models && Speaks(e.model, m') && Lower(m') == Lower(m);
    assert AppliesTo(e, regions, models, k, r', m');
  }

  // What the entries seen so far leave recorded for a key.
  ghost function Recorded(entries: seq<Entry>, regions: seq<string>, models: seq<string>, k: string): Option<(int, int)> {
    if entries == [] then None
    else
      var n := |entries| - 1;
      var slot := Recorded(entries[..n], regions, models, k);
      if Applies(entries[n], regions, models, k) then Put(slot, Score(entries[n]), entries[n].value.value) else slot
  }

  ghost predicate Seen(resp: map<string, int>, spec: map<string, int>, entries: seq<Entry>, regions: seq<string>, models: seq<string>) {
    resp.Keys == spec.Keys && forall k :: Slot(resp, spec, k) == Recorded(entries, regions, models, k)
  }

  // An iteration of the outer loop.
  method Absorb(e: Entry, regions: seq<string>, models: seq<string>, resp: map<string, int>, spec: map<string, int>, ghost before: seq<Entry>)
    returns (resp': map<string, int>, spec': map<string, int>)
    requires Seen(resp, spec, before, regions, models)
    ensures Seen(resp', spec', before + [e], regions, models)
  {
    hide Applies, Expands, Slot, Put, Key;
    if e.value.None? {
      Skipped(e, regions, models, resp, spec, before);
      return resp, spec;
    }
    var score := 0;
    var rs, regionMatched := Expand(e.region, regions);
    if !regionMatched {
      Skipped(e, regions, models, resp, spec, before);
      return resp, spec;
    }
    score := score + (if e.region != "" then 1 else 0);
    var ms, modelMatched := Expand(e.model, models);
    if !modelMatched {
      Skipped(e, regions, models, resp, spec, before);
      return resp, spec;
    }
    score := score + (if e.model != "" then 2 else 0);
    ghost var done := set r, m | r in rs && m in ms :: Key(r, m);
    resp', spec' := SetAll(resp, spec, rs, ms, score, e.value.value);
    SeenAfter(e, rs, ms, regions, models, resp, spec, before, resp', spec', done);
  }

  lemma {:induction false} SeenAfter(e: Entry, rs: seq<string>, ms: seq<string>, regions: seq<string>, models: seq<string>,
                                     resp: map<string, int>, spec: map<string, int>, before: seq<Entry>,
                                     resp': map<string, int>, spec': map<string, int>, done: set<string>)
    requires Seen(resp, spec, before, regions, models)
    requires e.value.Some? && Expands(rs, e.region, regions) && Expands(ms, e.model, models)
    requires done == set r, m | r in rs && m in ms :: Key(r, m)
    requires Updated(resp, spec, resp', spec', done, Score(e), e.value.value)
    ensures Seen(resp', spec', before + [e], regions, models)
  {
    var after := before + [e];
    assert after[..|before|] == before;
    forall k ensures Slot(resp', spec', k) == Recorded(after, regions, models, k) {
      if Applies(e, regions, models, k) {
        AppliesCovered(e, rs, ms, regions, models, k);
      } else if k in done {
        CoveredApplies(e, rs, ms, regions, models, k);
      }
      hide Applies, Expands, Slot, Put, Key, Score;
    }
  }

  lemma {:induction false} Skipped(e: Entry, regions: seq<string>, models: seq<string>, resp: map<string, int>, spec: map<string, int>, before: seq<Entry>)
    requires Seen(resp, spec, before, regions, models)
    requires e.value.None? || Expands([], e.region, regions) || Expands([], e.model, models)
    ensures Seen(resp, spec, before + [e], regions, models)
  {
    var after := before + [e];
    assert after[..|before|] == before;
    assert forall k :: !Applies(e, regions, models, k);
    hide Applies, Slot, Put;
  }

  method ExtractLimits(qi: Option<seq<Entry>>, targetRegions: seq<string>, targetModels: seq<string>) returns (resp: map<string, int>)
    ensures Extracted(resp, if qi.None? then [] else qi.value, targetRegions, targetModels)
  {
    resp := map[];
    var specificity: map<string, int> := map[];
    if qi.None? {
      return;
    }
    var entries := qi.value;
    for i := 0 to |entries|
      invariant Seen(resp, specificity, entries[..i], targetRegions, targetModels)
    {
      resp, specificity := Absorb(entries[i], targetRegions, targetModels, resp, specificity, entries[..i]);
      assert entries[..i + 1] == entries[..i] + [entries[i]];
    }
    assert entries[..|entries|] == entries;
    SeenIsExtracted(resp, specificity, entries, targetRegions, targetModels);
  }

  // What is recorded for a key is its winning entry.
  lemma {:induction false} RecordedWins(entries: seq<Entry>, regions: seq<string>, models: seq<string>, k: string) returns (i: nat)
    ensures
      var slot := Recorded(entries, regions, models, k);
      && (slot.None? ==> forall j | 0 <= j < |entries| :: !Applies(entries[j], regions, models, k))
      && (slot.Some? ==> WinsWith(entries, regions, models, k, i, slot.value.1) && slot.value.0 == Score(entries[i]))
  {
    i := 0;
    if entries != [] {
      var n := |entries| - 1;
      i := RecordedWins(entries[..n], regions, models, k);
      if Applies(entries[n], regions, models, k) {
        i := LastApplies(entries, regions, models, k, i);
      } else {
        LastSilent(entries, regions, models, k, i);
      }
    }
  }

  lemma {:induction false} LastSilent(entries: seq<Entry>, regions: seq<string>, models: seq<string>, k: string, i: nat)
    requires entries != [] && !Applies(entries[|entries| - 1], regions, models, k)
    ensures Wins(entries[..|entries| - 1], regions, models, k, i) ==> Wins(entries, regions, models, k, i)
  {
    hide Applies, Score;
    LastTops(entries, regions, models, k);
  }

  lemma {:induction false} LastTops(entries: seq<Entry>, regions: seq<string>, models: seq<string>, k: string)
    requires entries != []
    ensures
      var n := |entries| - 1;
      forall j: nat | j < n && (Applies(entries[n], regions, models, k) ==> Score(entries[n]) <= Score(entries[j])) ::
        IsTop(entries[..n], regions, models, k, j) <==> IsTop(entries, regions, models, k, j)
  {
    hide Applies, Score;
  }

  // Of the earlier winner and an entry that applies, the better one wins; a tie
  // goes to the entry.
  lemma {:induction false} LastApplies(entries: seq<Entry>, regions: seq<string>, models: seq<string>, k: string, before: nat) returns (i: nat)
    requires entries != [] && Applies(entries[|entries| - 1], regions, models, k)
    requires
      var front := entries[..|entries| - 1];
      var slot := Recorded(front, regions, models, k);
      && (slot.None? ==> forall j | 0 <= j < |front| :: !Applies(front[j], regions, models, k))
      && (slot.Some? ==> WinsWith(front, regions, models, k, before, slot.value.1) && slot.value.0 == Score(front[before]))
    ensures
      var slot := Recorded(entries, regions, models, k);
      slot.Some? && WinsWith(entries, regions, models, k, i, slot.value.1) && slot.value.0 == Score(entries[i])
  {
    var n := |entries| - 1;
    var slot := Recorded(entries[..n], regions, models, k);
    assert entries[n].value.Some?;
    assert Recorded(entries, regions, models, k) == Put(slot, Score(entries[n]), entries[n].value.value);
    i := if slot.Some? && slot.value.0 > Score(entries[n]) then before else n;
    LastTops(entries, regions, models, k);
    hide Applies, Score, Recorded;
  }

  lemma {:induction false} SeenIsExtracted(resp: map<string, int>, spec: map<string, int>, entries: seq<Entry>, regions: seq<string>, models: seq<string>)
    requires Seen(resp, spec, entries, regions, models)
    ensures Extracted(resp, entries, regions, models)
  {
    hide Applies, Wins, Recorded;
    forall k | k in resp ensures exists i: nat :: WinsWith(entries, regions, models, k, i, resp[k]) {
      assert Slot(resp, spec, k).Some?;
      var i := RecordedWins(entries, regions, models, k);
    }
    forall k, i | 0 <= i < |entries| && Applies(entries[i], regions, models, k) ensures k in resp {
      var j := RecordedWins(entries, regions, models, k);
      assert Slot(resp, spec, k).Some?;
    }
  }

  // ---------- What "most specific" means ----------

  // Every value comes from an entry that applies. A model name outweighs
  // everything: if some entry that applies names a model, the winner does. Then
  // a region name counts, and then the place in the answer: the last one wins.
  lemma {:induction false} MostSpecificWins(resp: map<string, int>, entries: seq<Entry>, regions: seq<string>, models: seq<string>, k: string)
    returns (i: nat)
    requires Extracted(resp, entries, regions, models) && k in resp
    ensures i < |entries| && Applies(entries[i], regions, models, k) && entries[i].value == Some(resp[k])
    ensures forall j | 0 <= j < |entries| && Applies(entries[j], regions, models, k) ::
      && (entries[j].model != "" ==> entries[i].model != "")
      && ((entries[j].model == "") == (entries[i].model == "") ==>
            && (entries[j].region != "" ==> entries[i].region != "")
            && ((entries[j].region == "") == (entries[i].region == "") ==> j <= i))
  {
    hide Applies;
    i :| WinsWith(entries, regions, models, k, i, resp[k]);
    forall j | 0 <= j < |entries| && Applies(entries[j], regions, models, k) && j > i
      ensures Score(entries[j]) < Score(entries[i])
    {
      assert !IsTop(entries, regions, models, k, j);
    }
  }

  // An entry applies to a target when each of its dimensions is empty or names
  // the target up to case.
  lemma {:induction false} AppliesIff(e: Entry, regions: seq<string>, models: seq<string>, region: string, model: string)
    requires region in regions && model in models && forall r | r in regions :: '/' !in r
    ensures Applies(e, regions, models, Key(region, model)) <==>
      && e.value.Some?
      && (e.region == "" || EqualFold(e.region, region))
      && (e.model == "" || EqualFold(e.model, model))
  {
    var k := Key(region, model);
    if Applies(e, regions, models, k) {
      var r, m :| AppliesTo(e, regions, models, k, r, m);
      SameKeyIff(r, m, region, model);
    } else {
      assert !AppliesTo(e, regions, models, k, region, model) || e.value.None?;
    }
    hide Lower, Key;
  }

  // A region-wide entry and a model entry, in either order: the target has the
  // value of the model entry.
  lemma {:induction false} ModelBeatsRegion(resp: map<string, int>, entries: seq<Entry>, region: string, model: string, regional: int, modelled: int)
    requires region != "" && model != ""
    requires
      var (a, b) := (Entry(region, "", Some(regional)), Entry("", model, Some(modelled)));
      entries == [a, b] || entries == [b, a]
    requires Extracted(resp, entries, [region], [model])
    ensures Key(region, model) in resp && resp[Key(region, model)] == modelled
  {
    var k := Key(region, model);
    assert region in [region] && model in [model];
    assert AppliesTo(entries[0], [region], [model], k, region, model);
    assert AppliesTo(entries[1], [region], [model], k, region, model);
    assert Applies(entries[0], [region], [model], k) && Applies(entries[1], [region], [model], k);
    var i := MostSpecificWins(resp, entries, [region], [model], k);
    hide Applies, AppliesTo, Extracted, Key;
  }

  // ---------- Order does not matter exactly when equals agree ----------

  // The most specific entries for a key have one value.
  ghost predicate TopsAgree(entries: seq<Entry>, regions: seq<string>, models: seq<string>) {
    forall k, i: nat, j: nat | IsTop(entries, regions, models, k, i) && IsTop(entries, regions, models, k, j) ::
      entries[i].value == entries[j].value
  }

  lemma {:induction false} TopElsewhere(a: seq<Entry>, b: seq<Entry>, regions: seq<string>, models: seq<string>, k: string, i: nat) returns (j: nat)
    requires multiset(a) == multiset(b) && IsTop(a, regions, models, k, i)
    ensures IsTop(b, regions, models, k, j) && b[j] == a[i]
  {
    hide Applies, Score;
    assert a[i] in multiset(b);
    j :| 0 <= j < |b| && b[j] == a[i];
    forall l | 0 <= l < |b| && Applies(b[l], regions, models, k) ensures Score(b[l]) <= Score(b[j]) {
      assert b[l] in multiset(a);
      var m :| 0 <= m < |a| && a[m] == b[l];
    }
  }

  // The winner exists and is unique, so the limits are determined.
  lemma {:induction false} SameValue(a: seq<Entry>, ra: map<string, int>, b: seq<Entry>, rb: map<string, int>, regions: seq<string>, models: seq<string>, k: string)
    requires multiset(a) == multiset(b) && TopsAgree(a, regions, models)
    requires Extracted(ra, a, regions, models) && Extracted(rb, b, regions, models)
    requires k in ra
    ensures k in rb && rb[k] == ra[k]
  {
    var i: nat :| WinsWith(a, regions, models, k, i, ra[k]);
    var j := TopElsewhere(a, b, regions, models, k, i);
    assert k in rb;
    var i': nat :| WinsWith(b, regions, models, k, i', rb[k]);
    var j' := TopElsewhere(b, a, regions, models, k, i');
  }

  // If equally specific matches agree, any order of the entries gives the same
  // limits.
  lemma {:induction false} OrderIrrelevant(a: seq<Entry>, ra: map<string, int>, b: seq<Entry>, rb: map<string, int>, regions: seq<string>, models: seq<string>)
    requires multiset(a) == multiset(b) && TopsAgree(a, regions, models)
    requires Extracted(ra, a, regions, models) && Extracted(rb, b, regions, models)
    ensures ra == rb
  {
    forall k | k in ra ensures k in rb && rb[k] == ra[k] {
      SameValue(a, ra, b, rb, regions, models, k);
    }
    TopsAgreeElsewhere(a, b, regions, models);
    forall k | k in rb ensures k in ra {
      SameValue(b, rb, a, ra, regions, models, k);
    }
  }

  lemma {:induction false} TopsAgreeElsewhere(a: seq<Entry>, b: seq<Entry>, regions: seq<string>, models: seq<string>)
    requires multiset(a) == multiset(b) && TopsAgree(a, regions, models)
    ensures TopsAgree(b, regions, models)
  {
    forall k, i: nat, j: nat | IsTop(b, regions, models, k, i) && IsTop(b, regions, models, k, j)
      ensures b[i].value == b[j].value
    {
      var i' := TopElsewhere(b, a, regions, models, k, i);
      var j' := TopElsewhere(b, a, regions, models, k, j);
    }
  }

  // Otherwise order does matter: moving either of two disagreeing entries to
  // the end makes its value win.
  lemma {:induction false} OrderMatters(entries: seq<Entry>, regions: seq<string>, models: seq<string>)
    returns (a: seq<Entry>, b: seq<Entry>, k: string)
    requires !TopsAgree(entries, regions, models)
    ensures multiset(a) == multiset(b) == multiset(entries)
    ensures forall ra, rb | Extracted(ra, a, regions, models) && Extracted(rb, b, regions, models) ::
      k in ra && k in rb && ra[k] != rb[k]
  {
    var i: nat, j: nat;
    k, i, j :| IsTop(entries, regions, models, k, i) && IsTop(entries, regions, models, k, j) && entries[i].value != entries[j].value;
    a, b := MovedLast(entries, i), MovedLast(entries, j);
    MovedLastWins(entries, regions, models, k, i);
    MovedLastWins(entries, regions, models, k, j);
  }

  function MovedLast(entries: seq<Entry>, i: nat): (r: seq<Entry>)
    requires i < |entries|
    ensures multiset(r) == multiset(entries) && |r| == |entries| && r[|r| - 1] == entries[i]
  {
    assert entries == entries[..i] + [entries[i]] + entries[i + 1..];
    entries[..i] + entries[i + 1..] + [entries[i]]
  }

  lemma {:induction false} MovedLastWins(entries: seq<Entry>, regions: seq<string>, models: seq<string>, k: string, i: nat)
    requires IsTop(entries, regions, models, k, i)
    ensures forall r | Extracted(r, MovedLast(entries, i), regions, models) :: k in r && Some(r[k]) == entries[i].value
  {
    var a := MovedLast(entries, i);
    var j := TopElsewhere(entries, a, regions, models, k, i);
    assert IsTop(a, regions, models, k, |a| - 1);
    hide MovedLast;
    forall r | Extracted(r, a, regions, models) ensures k in r && Some(r[k]) == entries[i].value {
      assert Applies(a[|a| - 1], regions, models, k) && k in r;
      var w: nat :| WinsWith(a, regions, models, k, w, r[k]);
    }
  }

  // ---------- Falling back ----------

  const UNLIMITED_QUOTA := -1

  // -1 stands for "no limit", which the rest of the system writes as 0.
  function ResolveLimit(limits: map<string, int>, key: string, fallback: int): int {
    if key in limits && limits[key] == UNLIMITED_QUOTA then 0
    else if key in limits && limits[key] > 0 then limits[key]
    else fallback
  }
}
