/** Mode-keyed waveform dictionaries.

    A Python dict keeps its keys in insertion order and the loops of the source
    walk it in that order, so a dictionary is modelled as the sequence of its
    (mode, series) entries. `Put` is Python's `d[k] = v`: it replaces the value
    of a present key where it stands and appends an absent one. */
module Modes {
  import opened Errors
  import opened Complex

  /** A spherical-harmonic mode (l, m). */
  datatype Mode = Mode(l: int, m: int)

  const Mode22: Mode := Mode(2, 2)

  datatype Entry = Entry(mode: Mode, h: Series)

  type ModeDict = seq<Entry>

  function Keys(d: ModeDict): (ks: seq<Mode>)
    ensures |ks| == |d|
    ensures forall i :: 0 <= i < |d| ==> ks[i] == d[i].mode
  {
    seq(|d|, i requires 0 <= i < |d| => d[i].mode)
  }

  /** The keys of a dict are pairwise different. */
  predicate Distinct(d: ModeDict) {
    forall i, j :: 0 <= i < j < |d| ==> d[i].mode != d[j].mode
  }

  /** `d.get(k)`. */
  function Get(d: ModeDict, k: Mode): (r: Option<Series>)
    ensures r.Some? <==> k in Keys(d)
  {
    if |d| == 0 then None
    else if d[0].mode == k then Some(d[0].h)
    else
      assert Keys(d) == [d[0].mode] + Keys(d[1..]);
      Get(d[1..], k)
  }

  /** `d[k] = v`. */
  function Put(d: ModeDict, k: Mode, v: Series): (r: ModeDict)
    ensures k in Keys(r)
    ensures forall k' :: k' in Keys(r) <==> k' == k || k' in Keys(d)
  {
    if |d| == 0 then
      KeysCons(Entry(k, v), []);
      assert [Entry(k, v)] + [] == [Entry(k, v)];
      [Entry(k, v)]
    else
      KeysUncons(d);
      if d[0].mode == k then
        KeysCons(Entry(k, v), d[1..]);
        [Entry(k, v)] + d[1..]
      else
        var rest := Put(d[1..], k, v);
        KeysCons(d[0], rest);
        [d[0]] + rest
  }

  lemma KeysCons(e: Entry, d: ModeDict)
    ensures Keys([e] + d) == [e.mode] + Keys(d)
  {
  }

  lemma KeysUncons(d: ModeDict)
    requires |d| > 0
    ensures Keys(d) == [d[0].mode] + Keys(d[1..])
  {
  }

  /** In a dict, looking up the key of entry `i` finds entry `i`. */
  lemma {:induction false} GetAt(d: ModeDict, i: nat)
    requires Distinct(d) && i < |d|
    ensures Get(d, d[i].mode) == Some(d[i].h)
  {
    if i > 0 {
      GetAt(d[1..], i - 1);
    }
  }

  /** A lookup that succeeds returns the value of an entry under that key. */
  lemma {:induction false} GetFinds(d: ModeDict, k: Mode)
    ensures Get(d, k).Some? ==> exists i :: 0 <= i < |d| && d[i] == Entry(k, Get(d, k).value)
  {
    if |d| > 0 && d[0].mode != k {
      GetFinds(d[1..], k);
      if Get(d, k).Some? {
        var i :| 0 <= i < |d[1..]| && d[1..][i] == Entry(k, Get(d, k).value);
        assert d[i + 1] == d[1..][i];
      }
    }
  }

  /** Assigning a key the dict does not hold appends one entry at the end. */
  lemma {:induction false} PutFresh(d: ModeDict, k: Mode, v: Series)
    requires k !in Keys(d)
    ensures Put(d, k, v) == d + [Entry(k, v)]
  {
    if |d| > 0 {
      assert Keys(d) == [d[0].mode] + Keys(d[1..]);
      PutFresh(d[1..], k, v);
    }
  }

  /** Distinctness is a property of the key sequence alone. */
  lemma DistinctSameKeys(d1: ModeDict, d2: ModeDict)
    requires Distinct(d1) && Keys(d1) == Keys(d2)
    ensures Distinct(d2)
  {
    forall i, j | 0 <= i < j < |d2| ensures d2[i].mode != d2[j].mode {
      assert Keys(d1)[i] == d1[i].mode && Keys(d1)[j] == d1[j].mode;
    }
  }

  /** Appending a fresh key keeps the keys distinct. */
  lemma AppendFreshDistinct(d: ModeDict, e: Entry)
    requires Distinct(d) && e.mode !in Keys(d)
    ensures Distinct(d + [e])
  {
    forall i, j | 0 <= i < j < |d + [e]| ensures (d + [e])[i].mode != (d + [e])[j].mode {
      if j == |d| {
        assert (d + [e])[i].mode == Keys(d)[i];
      }
    }
  }

  /** A fresh key in front of a dict keeps the keys distinct. */
  lemma ConsDistinct(e: Entry, d: ModeDict)
    requires Distinct(d) && e.mode !in Keys(d)
    ensures Distinct([e] + d)
  {
    forall j | 0 <= j < |d| ensures d[j].mode != e.mode {
      assert Keys(d)[j] == d[j].mode;
    }
  }

  /** The first key of a dict is not among the others, which stay distinct. */
  lemma DistinctTail(d: ModeDict)
    requires Distinct(d) && |d| > 0
    ensures Distinct(d[1..]) && d[0].mode !in Keys(d[1..])
  {
    forall j | 0 <= j < |d| - 1 ensures Keys(d[1..])[j] != d[0].mode {
      assert d[1..][j] == d[j + 1];
    }
  }

  /** Assignment into a dict keeps its keys distinct. */
  lemma {:induction false} PutDistinct(d: ModeDict, k: Mode, v: Series)
    requires Distinct(d)
    ensures Distinct(Put(d, k, v))
    ensures |Put(d, k, v)| == if k in Keys(d) then |d| else |d| + 1
  {
    if |d| > 0 {
      KeysUncons(d);
      DistinctTail(d);
      if d[0].mode == k {
        ConsDistinct(Entry(k, v), d[1..]);
      } else {
        PutDistinct(d[1..], k, v);
        ConsDistinct(d[0], Put(d[1..], k, v));
      }
    }
  }

  /** A second assignment to the same key only replaces the value of the first. */
  lemma {:induction false} PutPut(d: ModeDict, k: Mode, v1: Series, v2: Series)
    ensures Put(Put(d, k, v1), k, v2) == Put(d, k, v2)
  {
    if |d| > 0 && d[0].mode != k {
      PutPut(d[1..], k, v1, v2);
    }
  }

  /** Looking up after `d[k] = v`. */
  lemma {:induction false} GetPut(d: ModeDict, k: Mode, v: Series, k': Mode)
    ensures Get(Put(d, k, v), k') == if k' == k then Some(v) else Get(d, k')
  {
    if |d| > 0 && d[0].mode != k {
      GetPut(d[1..], k, v, k');
    }
  }

  /** `d[k] = v` keeps every value of length n when v has length n. */
  lemma {:induction false} PutLengths(d: ModeDict, k: Mode, v: Series, n: nat)
    requires forall i :: 0 <= i < |d| ==> |d[i].h| == n
    requires |v| == n
    ensures forall i :: 0 <= i < |Put(d, k, v)| ==> |Put(d, k, v)[i].h| == n
  {
    if |d| > 0 && d[0].mode != k {
      assert forall i :: 0 <= i < |d[1..]| ==> d[1..][i] == d[i + 1];
      PutLengths(d[1..], k, v, n);
    }
  }

  /** A dict whose every value is replaced by `f` of its entry, key order kept:
      the shape of every loop that fills a fresh dict under the same keys. */
  function MapEntries(d: ModeDict, f: Entry -> Series): (r: ModeDict)
    ensures |r| == |d|
    ensures forall i :: 0 <= i < |d| ==> r[i] == Entry(d[i].mode, f(d[i]))
    ensures Keys(r) == Keys(d)
  {
    seq(|d|, i requires 0 <= i < |d| => Entry(d[i].mode, f(d[i])))
  }

  /** Mapping the values keeps the keys distinct, and each key finds its mapped value. */
  lemma {:induction false} MapEntriesGet(d: ModeDict, f: Entry -> Series, k: Mode)
    ensures Distinct(d) ==> Distinct(MapEntries(d, f))
    ensures Get(MapEntries(d, f), k) == match Get(d, k) case None => None case Some(h) => Some(f(Entry(k, h)))
  {
    if |d| > 0 {
      assert MapEntries(d, f)[1..] == MapEntries(d[1..], f);
      MapEntriesGet(d[1..], f, k);
    }
  }

  /** Mapping the values commutes with an assignment. */
  lemma {:induction false} MapEntriesPut(d: ModeDict, k: Mode, v: Series, f: Entry -> Series)
    ensures MapEntries(Put(d, k, v), f) == Put(MapEntries(d, f), k, f(Entry(k, v)))
  {
    if |d| > 0 {
      assert MapEntries(d, f)[1..] == MapEntries(d[1..], f);
      if d[0].mode != k {
        MapEntriesPut(d[1..], k, v, f);
        assert MapEntries([d[0]] + Put(d[1..], k, v), f) == [Entry(d[0].mode, f(d[0]))] + MapEntries(Put(d[1..], k, v), f);
      } else {
        assert MapEntries([Entry(k, v)] + d[1..], f) == [Entry(k, f(Entry(k, v)))] + MapEntries(d[1..], f);
      }
    }
  }

  /** The dict that the loop `out[e.mode] = f(e)`, run over the entries of `d`
      in order, builds in a fresh dict; the first entry on which `f` raises
      ends the loop with that error. */
  function FillFrom(d: ModeDict, f: Entry -> Result<Series>): Result<ModeDict> {
    if |d| == 0 then Ok([])
    else
      var acc :- FillFrom(d[..|d| - 1], f);
      var v :- f(d[|d| - 1]);
      Ok(Put(acc, d[|d| - 1].mode, v))
  }

  /** One iteration of the loop: the entry's key is assigned `f` of the entry. */
  lemma FillFromStep(d: ModeDict, i: nat, f: Entry -> Result<Series>, acc: ModeDict)
    requires i < |d| && FillFrom(d[..i], f) == Ok(acc) && f(d[i]).Ok?
    ensures FillFrom(d[..i + 1], f) == Ok(Put(acc, d[i].mode, f(d[i]).value))
  {
    assert d[..i + 1][..i] == d[..i];
    assert d[..i + 1][i] == d[i];
  }

  /** The loop succeeds exactly when `f` succeeds on every entry. */
  lemma {:induction false} FillFromOk(d: ModeDict, f: Entry -> Result<Series>)
    ensures FillFrom(d, f).Ok? <==> forall i :: 0 <= i < |d| ==> f(d[i]).Ok?
  {
    FillFromOkPrefix(d, f);
    if forall i :: 0 <= i < |d| ==> f(d[i]).Ok? {
      FillFromAllOk(d, f);
    }
  }

  /** When `f` succeeds on every entry the loop completes. */
  lemma {:induction false} FillFromAllOk(d: ModeDict, f: Entry -> Result<Series>)
    requires forall i :: 0 <= i < |d| ==> f(d[i]).Ok?
    ensures FillFrom(d, f).Ok?
  {
    if |d| > 0 {
      var n := |d| - 1;
      forall j | 0 <= j < n ensures f(d[..n][j]).Ok? {
        assert d[..n][j] == d[j];
      }
      FillFromAllOk(d[..n], f);
    }
  }

  /** On a dict a completed loop keeps the keys in their order and replaces
      each value by `f`'s. */
  lemma {:induction false} FillFromDistinct(d: ModeDict, f: Entry -> Result<Series>)
    requires Distinct(d)
    ensures FillFrom(d, f).Ok? ==>
      |FillFrom(d, f).value| == |d| && Keys(FillFrom(d, f).value) == Keys(d) &&
      forall i :: 0 <= i < |d| ==> f(d[i]).Ok? && FillFrom(d, f).value[i] == Entry(d[i].mode, f(d[i]).value)
  {
    if |d| > 0 {
      var n := |d| - 1;
      DistinctInit(d);
      FillFromDistinct(d[..n], f);
      var acc := FillFrom(d[..n], f);
      if acc.Ok? && f(d[n]).Ok? {
        PutFresh(acc.value, d[n].mode, f(d[n]).value);
        FilledAppend(d, f, acc.value);
      }
    }
  }

  /** Dropping the last entry keeps the keys distinct, and its key is not among the others. */
  lemma DistinctInit(d: ModeDict)
    requires Distinct(d) && |d| > 0
    ensures Distinct(d[..|d| - 1]) && d[|d| - 1].mode !in Keys(d[..|d| - 1])
  {
    var n := |d| - 1;
    forall j | 0 <= j < n ensures Keys(d[..n])[j] != d[n].mode {
      assert d[..n][j] == d[j];
    }
  }

  /** The step of FillFromDistinct: the entries filled so far, then the last one. */
  lemma FilledAppend(d: ModeDict, f: Entry -> Result<Series>, acc: ModeDict)
    requires |d| > 0 && f(d[|d| - 1]).Ok?
    requires |acc| == |d| - 1 && Keys(acc) == Keys(d[..|d| - 1])
    requires forall i :: 0 <= i < |d| - 1 ==> (f(d[..|d| - 1][i]).Ok? &&
      acc[i] == Entry(d[..|d| - 1][i].mode, f(d[..|d| - 1][i]).value))
    ensures var r := acc + [Entry(d[|d| - 1].mode, f(d[|d| - 1]).value)];
      |r| == |d| && Keys(r) == Keys(d) &&
      forall i :: 0 <= i < |d| ==> f(d[i]).Ok? && r[i] == Entry(d[i].mode, f(d[i]).value)
  {
    var n := |d| - 1;
    var r := acc + [Entry(d[n].mode, f(d[n]).value)];
    forall i | 0 <= i < |d| ensures f(d[i]).Ok? && r[i] == Entry(d[i].mode, f(d[i]).value) {
      if i < n {
        assert d[..n][i] == d[i];
      }
    }
    assert Keys(r) == Keys(d);
  }

  /** The loop fails with the error of the first entry on which `f` raises. */
  lemma {:induction false} FillFromFirstError(d: ModeDict, f: Entry -> Result<Series>)
    ensures FillFrom(d, f).Err? ==>
      exists k :: 0 <= k < |d| && f(d[k]) == Err(FillFrom(d, f).error) &&
        forall j :: 0 <= j < k ==> f(d[j]).Ok?
  {
    if |d| > 0 {
      var n := |d| - 1;
      FillFromFirstError(d[..n], f);
      var acc := FillFrom(d[..n], f);
      if acc.Err? {
        var k :| 0 <= k < n && f(d[..n][k]) == Err(acc.error) && forall j :: 0 <= j < k ==> f(d[..n][j]).Ok?;
        assert forall j :: 0 <= j <= k ==> d[..n][j] == d[j];
      } else if f(d[n]).Err? {
        FillFromOkPrefix(d[..n], f);
        assert forall j :: 0 <= j < n ==> d[..n][j] == d[j];
      }
    }
  }

  /** A loop that completes has run `f` successfully on every entry. */
  lemma {:induction false} FillFromOkPrefix(d: ModeDict, f: Entry -> Result<Series>)
    ensures FillFrom(d, f).Ok? ==> forall j :: 0 <= j < |d| ==> f(d[j]).Ok?
  {
    if |d| > 0 {
      var n := |d| - 1;
      FillFromOkPrefix(d[..n], f);
      assert forall j :: 0 <= j < n ==> d[..n][j] == d[j];
    }
  }

  /** Two per-entry functions that agree on every entry fill the same dict. */
  lemma {:induction false} FillFromAgree(d: ModeDict, f: Entry -> Result<Series>, g: Entry -> Result<Series>)
    requires forall i :: 0 <= i < |d| ==> f(d[i]) == g(d[i])
    ensures FillFrom(d, f) == FillFrom(d, g)
  {
    if |d| > 0 {
      var n := |d| - 1;
      assert forall j :: 0 <= j < n ==> d[..n][j] == d[j];
      FillFromAgree(d[..n], f, g);
    }
  }

  /** Once a prefix of the loop fails, the whole loop fails with the same error. */
  lemma {:induction false} FillFromPrefixError(d: ModeDict, n: nat, f: Entry -> Result<Series>)
    requires n <= |d|
    requires FillFrom(d[..n], f).Err?
    ensures FillFrom(d, f) == Err(FillFrom(d[..n], f).error)
    decreases |d| - n
  {
    if n < |d| {
      assert d[..n + 1][..n] == d[..n];
      FillFromPrefixError(d, n + 1, f);
    } else {
      assert d[..n] == d;
    }
  }
}
