/**
 * `sort_values(by=['AdID', 'DTG'])`: rows ordered by identifier, then by
 * timestamp. A sort on several columns is stable, and is modelled as a stable
 * insertion sort; what the rest of the model relies on is proved about it: it
 * returns a permutation of its input that is sorted by the key, and keeps rows
 * with equal keys in input order.
 */
module TrackSort {
  import opened StringOrder
  import opened TrackPoints

  /** The sort key `(AdID, DTG)` of `p` is at most that of `q`. */
  predicate KeyLe(p: Point, q: Point)
  {
    StrLess(p.adId, q.adId) || (p.adId == q.adId && p.dtg <= q.dtg)
  }

  /** Every row's key is at most the key of every later row. */
  predicate SortedByKey(s: seq<Point>)
  {
    forall i, j :: 0 <= i < j < |s| ==> KeyLe(s[i], s[j])
  }

  lemma KeyLeTotal(p: Point, q: Point)
    ensures KeyLe(p, q) || KeyLe(q, p)
  {
    if p.adId != q.adId {
      StrLessTotal(p.adId, q.adId);
    }
  }

  lemma KeyLeTransitive(p: Point, q: Point, r: Point)
    requires KeyLe(p, q) && KeyLe(q, r)
    ensures KeyLe(p, r)
  {
    if StrLess(p.adId, q.adId) && StrLess(q.adId, r.adId) {
      StrLessTransitive(p.adId, q.adId, r.adId);
    }
  }

  /** Two rows in key order that share an identifier are in timestamp order. */
  lemma {:induction false} SameTrackInTimeOrder(p: Point, q: Point)
    requires KeyLe(p, q) && p.adId == q.adId
    ensures p.dtg <= q.dtg
  {
    StrLessIrreflexive(p.adId);
  }

  /** Two rows in key order with identifiers in the other order have equal identifiers. */
  lemma {:induction false} KeyLeIdentifiers(p: Point, q: Point)
    requires KeyLe(p, q)
    ensures !StrLess(q.adId, p.adId)
  {
    if StrLess(p.adId, q.adId) {
      StrLessAsymmetric(p.adId, q.adId);
    } else {
      StrLessIrreflexive(p.adId);
    }
  }

  /** Putting a row in front of a sorted sequence whose head it does not exceed keeps it sorted. */
  lemma PrependKeepsSorted(p: Point, s: seq<Point>)
    requires s != [] && KeyLe(p, s[0]) && SortedByKey(s)
    ensures SortedByKey([p] + s)
  {
    var r := [p] + s;
    forall j | 0 < j < |r| ensures KeyLe(r[0], r[j]) {
      if j > 1 { KeyLeTransitive(p, s[0], s[j - 1]); }
    }
  }

  /**
   * A row that is at most every element of a sorted sequence `rest` can be put in
   * front of it; `rest`'s elements are those of `tail` plus `p`.
   */
  lemma ConsKeepsSorted(x: Point, tail: seq<Point>, p: Point, rest: seq<Point>)
    requires SortedByKey([x] + tail) && KeyLe(x, p)
    requires multiset(rest) == multiset(tail) + multiset{p} && SortedByKey(rest)
    ensures SortedByKey([x] + rest)
  {
    var r := [x] + rest;
    forall j | 0 < j < |r| ensures KeyLe(r[0], r[j]) {
      assert r[0] == x && r[j] == rest[j - 1];
      assert rest[j - 1] in multiset(rest);
      if rest[j - 1] != p {
        assert rest[j - 1] in multiset(tail);
        var k :| 0 <= k < |tail| && tail[k] == rest[j - 1];
        assert ([x] + tail)[0] == x && ([x] + tail)[k + 1] == rest[j - 1];
        assert KeyLe(([x] + tail)[0], ([x] + tail)[k + 1]);
      }
    }
  }

  /** Insert `p` before the first row whose key is not smaller, keeping equal keys in input order. */
  function Insert(p: Point, s: seq<Point>): (r: seq<Point>)
    ensures multiset(r) == multiset(s) + multiset{p}
    ensures SortedByKey(s) ==> SortedByKey(r)
  {
    if s == [] then [p]
    else if KeyLe(p, s[0]) then
      if SortedByKey(s) then PrependKeepsSorted(p, s); [p] + s
      else [p] + s
    else
      var rest := Insert(p, s[1..]);
      assert s == [s[0]] + s[1..];
      if SortedByKey(s) then
        KeyLeTotal(p, s[0]);
        ConsKeepsSorted(s[0], s[1..], p, rest);
        [s[0]] + rest
      else [s[0]] + rest
  }

  /** `sort_values(by=['AdID', 'DTG'])` on the surviving rows. */
  function SortByKey(s: seq<Point>): (r: seq<Point>)
    ensures multiset(r) == multiset(s)
    ensures |r| == |s|
    ensures SortedByKey(r)
  {
    if s == [] then []
    else
      assert s == [s[0]] + s[1..];
      Insert(s[0], SortByKey(s[1..]))
  }

  /** `[p]` when `p`'s key is `(adId, dtg)`, otherwise no row. */
  function KeyRow(p: Point, adId: string, dtg: int): (r: seq<Point>)
    ensures r == [p] || r == []
  {
    if p.adId == adId && p.dtg == dtg then [p] else []
  }

  /** The rows of `s` whose key is `(adId, dtg)`, in their order in `s`. */
  function WithKey(s: seq<Point>, adId: string, dtg: int): (r: seq<Point>)
    ensures |r| <= |s|
    ensures forall p :: p in r ==> p in s && p.adId == adId && p.dtg == dtg
  {
    if s == [] then [] else KeyRow(s[0], adId, dtg) + WithKey(s[1..], adId, dtg)
  }

  lemma WithKeyCons(x: Point, s: seq<Point>, adId: string, dtg: int)
    ensures WithKey([x] + s, adId, dtg) == KeyRow(x, adId, dtg) + WithKey(s, adId, dtg)
  {
    assert ([x] + s)[1..] == s;
  }

  /** Past a row with a key below its own, `Insert` keeps that row first. */
  lemma InsertPastHead(p: Point, s: seq<Point>)
    requires s != [] && !KeyLe(p, s[0])
    ensures Insert(p, s) == [s[0]] + Insert(p, s[1..])
  {
  }

  /**
   * Moving `p` past a head row with another key does not reorder the rows of
   * any one key.
   */
  lemma TieOrderPastHead(p: Point, s: seq<Point>, rest: seq<Point>, adId: string, dtg: int)
    requires s != [] && (p.adId != s[0].adId || p.dtg != s[0].dtg)
    requires WithKey(rest, adId, dtg) == WithKey([p] + s[1..], adId, dtg)
    ensures WithKey([s[0]] + rest, adId, dtg) == WithKey([p] + s, adId, dtg)
  {
    WithKeyCons(s[0], rest, adId, dtg);
    WithKeyCons(p, s[1..], adId, dtg);
    WithKeyCons(p, s, adId, dtg);
    assert s == [s[0]] + s[1..];
    WithKeyCons(s[0], s[1..], adId, dtg);
    if KeyRow(p, adId, dtg) == [] {
      assert WithKey([p] + s[1..], adId, dtg) == WithKey(s[1..], adId, dtg);
      assert WithKey([p] + s, adId, dtg) == WithKey(s, adId, dtg);
    } else {
      assert KeyRow(s[0], adId, dtg) == [];
      assert WithKey([s[0]] + rest, adId, dtg) == WithKey(rest, adId, dtg);
      assert WithKey(s, adId, dtg) == WithKey(s[1..], adId, dtg);
    }
  }

  /** `Insert` puts `p` in front of every row with the same key, after none of them. */
  lemma {:induction false} InsertKeepsTieOrder(p: Point, s: seq<Point>, adId: string, dtg: int)
    ensures WithKey(Insert(p, s), adId, dtg) == WithKey([p] + s, adId, dtg)
  {
    if s == [] {
      assert [p] + s == [p];
    } else if !KeyLe(p, s[0]) {
      InsertPastHead(p, s);
      InsertKeepsTieOrder(p, s[1..], adId, dtg);
      TieOrderPastHead(p, s, Insert(p, s[1..]), adId, dtg);
    }
  }

  /**
   * The sort is stable: for every key, the rows with that key come out in the
   * order they went in.
   */
  lemma {:induction false} SortKeepsTieOrder(s: seq<Point>, adId: string, dtg: int)
    ensures WithKey(SortByKey(s), adId, dtg) == WithKey(s, adId, dtg)
  {
    if s != [] {
      SortKeepsTieOrder(s[1..], adId, dtg);
      InsertKeepsTieOrder(s[0], SortByKey(s[1..]), adId, dtg);
      WithKeyCons(s[0], SortByKey(s[1..]), adId, dtg);
    }
  }

  /**
   * In a sorted sequence, rows of one identifier with increasing timestamps
   * appear in that order (earlier observations first).
   */
  lemma {:induction false} EarlierObservationFirst(s: seq<Point>, a: nat, b: nat)
    requires SortedByKey(s)
    requires a < |s| && b < |s|
    requires s[a].adId == s[b].adId && s[a].dtg < s[b].dtg
    ensures a < b
  {
    if b <= a {
      assert b < a;
      SameTrackInTimeOrder(s[b], s[a]);
    }
  }

  /**
   * In a sorted sequence the rows of one identifier are contiguous: a row whose
   * identifier differs from its predecessor's is the first row of that identifier.
   */
  lemma {:induction false} TracksAreContiguous(s: seq<Point>, i: nat, j: nat)
    requires SortedByKey(s)
    requires 0 < i < |s| && s[i].adId != s[i - 1].adId
    requires j < i
    ensures s[j].adId != s[i].adId
  {
    if s[j].adId == s[i].adId {
      assert KeyLe(s[j], s[i - 1]) && KeyLe(s[i - 1], s[i]);
      KeyLeIdentifiers(s[j], s[i - 1]);
    }
  }
}
