/**
 The contract of a catalog store: an insertion-ordered map from (resource, kind)
 to entries, with filtered and paginated listings.
 */
module Catalog {
  import opened Json
  import opened Payment
  import opened Wrappers

  const U32_MAX: nat := 0xFFFF_FFFF
  const DEFAULT_LIST_LIMIT: u32 := 50

  type u32 = n: nat | n <= U32_MAX

  datatype DiscoveryResource = DiscoveryResource(
    resource: string,
    kind: string,
    x402Version: nat,
    accepts: seq<PaymentRequirements>,
    lastUpdated: string,
    metadata: Option<Json>)

  datatype ListParams = ListParams(
    kind: Option<string>, limit: Option<u32>, offset: Option<u32>, network: Option<string>, scheme: Option<string>)

  type Rows = seq<DiscoveryResource>

  function Key(r: DiscoveryResource): (string, string) {
    (r.resource, r.kind)
  }

  ghost predicate UniqueKeys(rows: Rows) {
    forall i, j :: 0 <= i < j < |rows| ==> Key(rows[i]) != Key(rows[j])
  }

  // ---------------------------------------------------------------------------
  // Upsert
  // ---------------------------------------------------------------------------

  /** Replace the entry with this key where it stands, or add it at the end. */
  function Put(rows: Rows, r: DiscoveryResource): Rows {
    if rows == [] then [r]
    else if Key(rows[0]) == Key(r) then [r] + rows[1..]
    else [rows[0]] + Put(rows[1..], r)
  }

  lemma {:induction false} PutReplaces(rows: Rows, r: DiscoveryResource, i: nat)
    requires i < |rows| && Key(rows[i]) == Key(r)
    requires forall j :: 0 <= j < i ==> Key(rows[j]) != Key(r)
    ensures Put(rows, r) == rows[i := r]
  {
    if i == 0 {
    } else {
      assert forall j :: 0 <= j < |rows[1..]| ==> rows[1..][j] == rows[j + 1];
      PutReplaces(rows[1..], r, i - 1);
      assert rows[i := r] == [rows[0]] + rows[1..][i - 1 := r];
    }
  }

  lemma {:induction false} PutAppends(rows: Rows, r: DiscoveryResource)
    requires forall j :: 0 <= j < |rows| ==> Key(rows[j]) != Key(r)
    ensures Put(rows, r) == rows + [r]
  {
    if rows == [] {
    } else {
      assert forall j :: 0 <= j < |rows[1..]| ==> rows[1..][j] == rows[j + 1];
      PutAppends(rows[1..], r);
    }
  }

  /** Where a key stands, or the length when it is absent. */
  function Position(rows: Rows, r: DiscoveryResource): (i: nat)
    ensures i <= |rows|
    ensures i < |rows| ==> Key(rows[i]) == Key(r)
    ensures forall j :: 0 <= j < i ==> Key(rows[j]) != Key(r)
  {
    if rows == [] || Key(rows[0]) == Key(r) then 0 else 1 + Position(rows[1..], r)
  }

  /** Upserts keep keys unique, every other entry, and the order. */
  lemma PutKeeps(rows: Rows, r: DiscoveryResource)
    requires UniqueKeys(rows)
    ensures UniqueKeys(Put(rows, r)) && r in Put(rows, r)
    ensures forall x :: x in Put(rows, r) ==> x == r || x in rows
    ensures |rows| <= |Put(rows, r)|
    ensures forall i :: 0 <= i < |rows| ==> Key(Put(rows, r)[i]) == Key(rows[i])
    ensures forall i :: 0 <= i < |rows| && Key(rows[i]) != Key(r) ==> Put(rows, r)[i] == rows[i]
  {
    var i := Position(rows, r);
    if i < |rows| {
      PutReplaces(rows, r, i);
      assert Put(rows, r)[i] == r;
    } else {
      PutAppends(rows, r);
      assert Put(rows, r)[i] == r;
    }
  }

  /** An upsert replaces what has the same resource and the same kind, and adds when there is none. */
  lemma PutReplacesSame(rows: Rows, r: DiscoveryResource)
    requires UniqueKeys(rows)
    ensures |rows| <= |Put(rows, r)| <= |rows| + 1
    ensures forall i :: 0 <= i < |rows| ==>
              Put(rows, r)[i] == if rows[i].resource == r.resource && rows[i].kind == r.kind then r else rows[i]
    ensures |Put(rows, r)| == |rows| <==> exists x :: x in rows && x.resource == r.resource && x.kind == r.kind
    ensures |Put(rows, r)| > |rows| ==> Put(rows, r)[|rows|] == r
  {
    var i := Position(rows, r);
    if i < |rows| {
      PutReplaces(rows, r, i);
      assert rows[i] in rows;
    } else {
      PutAppends(rows, r);
      forall x | x in rows
        ensures x.resource != r.resource || x.kind != r.kind
      {
        var j :| 0 <= j < |rows| && rows[j] == x;
        assert Key(rows[j]) != Key(r);
      }
    }
  }

  // ---------------------------------------------------------------------------
  // What a history of upserts leaves behind
  // ---------------------------------------------------------------------------

  function PutAll(history: Rows): Rows {
    if history == [] then [] else Put(PutAll(history[..|history| - 1]), history[|history| - 1])
  }

  /** The keys of a history in order of first appearance. */
  function FirstKeys(history: Rows): seq<(string, string)> {
    if history == [] then []
    else
      var keys := FirstKeys(history[..|history| - 1]);
      var key := Key(history[|history| - 1]);
      if key in keys then keys else keys + [key]
  }

  /** The last entry of a history with this key. */
  function LastWith(history: Rows, key: (string, string)): Option<DiscoveryResource> {
    if history == [] then None
    else if Key(history[|history| - 1]) == key then Some(history[|history| - 1])
    else LastWith(history[..|history| - 1], key)
  }

  /** The store holds the keys in order of first upsert, each with the value of its last upsert. */
  lemma {:induction false} PutAllIs(history: Rows)
    ensures UniqueKeys(PutAll(history)) && |PutAll(history)| == |FirstKeys(history)|
    ensures forall i :: 0 <= i < |FirstKeys(history)| ==>
              && Key(PutAll(history)[i]) == FirstKeys(history)[i]
              && LastWith(history, FirstKeys(history)[i]) == Some(PutAll(history)[i])
  {
    if history == [] {
    } else {
      var before, r := history[..|history| - 1], history[|history| - 1];
      var rows := PutAll(before);
      PutAllIs(before);
      PutKeeps(rows, r);
      var i := Position(rows, r);
      if i < |rows| {
        PutReplaces(rows, r, i);
        assert FirstKeys(before)[i] == Key(r);
      } else {
        PutAppends(rows, r);
        assert Key(r) !in FirstKeys(before);
      }
    }
  }

  // ---------------------------------------------------------------------------
  // Listing
  // ---------------------------------------------------------------------------

  predicate AcceptsNetwork(r: DiscoveryResource, network: string) {
    exists i :: 0 <= i < |r.accepts| && r.accepts[i].network == network
  }

  predicate AcceptsScheme(r: DiscoveryResource, scheme: string) {
    exists i :: 0 <= i < |r.accepts| && r.accepts[i].scheme == scheme
  }

  /** All three filters; the network and the scheme may be met by different `accepts` entries. */
  predicate Meets(p: ListParams, r: DiscoveryResource) {
    && (p.kind.Some? ==> r.kind == p.kind.value)
    && (p.network.Some? ==> AcceptsNetwork(r, p.network.value))
    && (p.scheme.Some? ==> AcceptsScheme(r, p.scheme.value))
  }

  function Retain(rows: Rows, keep: DiscoveryResource -> bool): Rows {
    if rows == [] then []
    else (if keep(rows[0]) then [rows[0]] else []) + Retain(rows[1..], keep)
  }

  /** The positions of the entries that meet the filters, in order. */
  function Hits(rows: Rows, p: ListParams): (hits: seq<nat>)
    ensures forall h :: h in hits <==> 0 <= h < |rows| && Meets(p, rows[h])
    ensures forall i, j :: 0 <= i < j < |hits| ==> hits[i] < hits[j]
  {
    if rows == [] then []
    else
      var n := |rows| - 1;
      assert forall h :: 0 <= h < n ==> rows[..n][h] == rows[h];
      var before := Hits(rows[..n], p);
      assert forall i :: 0 <= i < |before| ==> before[i] in before;
      before + (if Meets(p, rows[n]) then [n] else [])
  }

  /** The insertion-order subsequence that meets the filters. */
  function Matching(rows: Rows, p: ListParams): (m: Rows)
    ensures |m| == |Hits(rows, p)|
  {
    var hits := Hits(rows, p);
    seq(|hits|, i requires 0 <= i < |hits| => assert hits[i] in hits; rows[hits[i]])
  }

  function Window(rows: Rows, offset: nat, limit: nat): Rows {
    var from := if offset < |rows| then offset else |rows|;
    var to := if from + limit < |rows| then from + limit else |rows|;
    rows[from..to]
  }

  /** One page of the matches, and the number of all matches as a u32. */
  function Listing(rows: Rows, p: ListParams): (Rows, u32) {
    var m := Matching(rows, p);
    var limit := if p.limit.Some? then p.limit.value else DEFAULT_LIST_LIMIT;
    var offset := if p.offset.Some? then p.offset.value else 0;
    (Window(m, offset, limit), |m| % (U32_MAX + 1))
  }

  lemma RetainFirst(rows: Rows, keep: DiscoveryResource -> bool)
    requires rows != []
    ensures keep(rows[0]) ==> Retain(rows, keep) == [rows[0]] + Retain(rows[1..], keep)
    ensures !keep(rows[0]) ==> Retain(rows, keep) == Retain(rows[1..], keep)
  {
    if !keep(rows[0]) {
      assert [] + Retain(rows[1..], keep) == Retain(rows[1..], keep);
    }
  }

  lemma Regroup<T>(a: seq<T>, b: seq<T>, c: seq<T>)
    ensures a + (b + c) == (a + b) + c
  {
  }

  lemma {:induction false} RetainSplits(a: Rows, b: Rows, keep: DiscoveryResource -> bool)
    ensures Retain(a + b, keep) == Retain(a, keep) + Retain(b, keep)
    decreases |a|
  {
    if |a| == 0 {
      assert a + b == b && a == [];
      assert Retain(a, keep) == [];
    } else {
      var rest := a[1..];
      RetainSplits(rest, b, keep);
      assert (a + b)[0] == a[0] && (a + b)[1..] == rest + b;
      RetainFirst(a, keep);
      RetainFirst(a + b, keep);
      Regroup([a[0]], Retain(rest, keep), Retain(b, keep));
      hide Retain;
    }
  }

  /** Retaining in one go is the same as picking out the matching positions. */
  lemma RetainIsMatching(rows: Rows, p: ListParams)
    ensures Retain(rows, r => Meets(p, r)) == Matching(rows, p)
  {
    var keep := r => Meets(p, r);
    RetainIsMatchingFor(rows, p, keep);
  }

  lemma {:induction false} RetainIsMatchingFor(rows: Rows, p: ListParams, keep: DiscoveryResource -> bool)
    requires forall r :: keep(r) <==> Meets(p, r)
    ensures Retain(rows, keep) == Matching(rows, p)
  {
    if rows == [] {
    } else {
      hide Retain, Matching, Meets, Hits;
      RetainIsMatchingFor(rows[..|rows| - 1], p, keep);
      RetainLast(rows, keep);
      MatchingLast(rows, p);
    }
  }

  lemma RetainLast(rows: Rows, keep: DiscoveryResource -> bool)
    requires rows != []
    ensures
      var n := |rows| - 1;
      Retain(rows, keep) == Retain(rows[..n], keep) + if keep(rows[n]) then [rows[n]] else []
  {
    hide Retain;
    var n := |rows| - 1;
    InitAndLast(rows);
    RetainOne(rows[n], keep);
    RetainSplits(rows[..n], [rows[n]], keep);
  }

  lemma InitAndLast<T>(s: seq<T>)
    requires s != []
    ensures s[..|s| - 1] + [s[|s| - 1]] == s
  {
  }

  lemma RetainOne(r: DiscoveryResource, keep: DiscoveryResource -> bool)
    ensures Retain([r], keep) == if keep(r) then [r] else []
  {
    assert Retain([r][1..], keep) == [];
  }

  lemma MatchingLast(rows: Rows, p: ListParams)
    requires rows != []
    ensures
      var n := |rows| - 1;
      Matching(rows, p) == Matching(rows[..n], p) + if Meets(p, rows[n]) then [rows[n]] else []
  {
    var n := |rows| - 1;
    var before, m := Hits(rows[..n], p), Matching(rows, p);
    assert Hits(rows, p) == before + if Meets(p, rows[n]) then [n] else [];
    forall i | 0 <= i < |before|
      ensures m[i] == Matching(rows[..n], p)[i]
    {
      assert before[i] in before;
    }
    hide Meets;
  }

  /** Retaining twice keeps what passes both times. */
  lemma {:induction false} RetainTwice(
    rows: Rows, f: DiscoveryResource -> bool, g: DiscoveryResource -> bool, both: DiscoveryResource -> bool)
    requires forall r :: both(r) <==> f(r) && g(r)
    ensures Retain(Retain(rows, f), g) == Retain(rows, both)
  {
    if rows == [] {
    } else {
      RetainTwice(rows[1..], f, g, both);
      RetainSplits(if f(rows[0]) then [rows[0]] else [], Retain(rows[1..], f), g);
      assert [rows[0]][1..] == [];
    }
  }

  // ---------------------------------------------------------------------------
  // Pagination
  // ---------------------------------------------------------------------------

  function PageAt(p: ListParams, limit: u32, k: nat): ListParams
    requires k * limit <= U32_MAX
  {
    p.(limit := Some(limit), offset := Some(k * limit))
  }

  /** The items of the first n pages, one after the other. */
  function Pages(rows: Rows, p: ListParams, limit: u32, n: nat): Rows
    requires n > 0 ==> (n - 1) * limit <= U32_MAX
  {
    if n == 0 then []
    else
      assert n > 1 ==> (n - 2) * limit <= (n - 1) * limit;
      Pages(rows, p, limit, n - 1) + Listing(rows, PageAt(p, limit, n - 1)).0
  }

  lemma {:induction false} MatchingIgnoresPage(rows: Rows, p: ListParams, q: ListParams)
    requires q == p.(limit := q.limit, offset := q.offset)
    ensures Hits(rows, q) == Hits(rows, p) && Matching(rows, q) == Matching(rows, p)
  {
    if rows == [] {
    } else {
      MatchingIgnoresPage(rows[..|rows| - 1], p, q);
    }
    var hits := Hits(rows, p);
    assert Hits(rows, q) == hits;
    assert |Matching(rows, q)| == |Matching(rows, p)|;
    forall i | 0 <= i < |hits|
      ensures Matching(rows, q)[i] == Matching(rows, p)[i]
    {
      assert hits[i] in hits;
    }
  }

  lemma WindowExtends(m: Rows, limit: nat, k: nat)
    ensures k * limit >= 0
    ensures Window(m, 0, k * limit) + Window(m, k * limit, limit) == Window(m, 0, (k + 1) * limit)
  {
    assert (k + 1) * limit == k * limit + limit;
  }

  /** Pages at offsets 0, L, 2L, ... join to a prefix of the matches without gap or repeat. */
  lemma {:induction false} PagesArePrefix(rows: Rows, p: ListParams, limit: u32, n: nat)
    requires n > 0 ==> (n - 1) * limit <= U32_MAX
    ensures n * limit >= 0 && Pages(rows, p, limit, n) == Window(Matching(rows, p), 0, n * limit)
  {
    if n == 0 {
    } else {
      assert n > 1 ==> (n - 2) * limit <= (n - 1) * limit;
      PagesArePrefix(rows, p, limit, n - 1);
      MatchingIgnoresPage(rows, p, PageAt(p, limit, n - 1));
      WindowExtends(Matching(rows, p), limit, n - 1);
    }
  }

  lemma MulLe(a: nat, b: nat, c: nat)
    requires a <= b
    ensures 0 <= a * c <= b * c
  {
  }

  lemma PageTotal(rows: Rows, p: ListParams, limit: u32, k: nat, n: nat)
    requires k < n && (n - 1) * limit <= U32_MAX
    ensures k * limit <= U32_MAX
    ensures |Matching(rows, p)| <= U32_MAX ==> Listing(rows, PageAt(p, limit, k)).1 == |Matching(rows, p)|
  {
    MulLe(k, n - 1, limit);
    MatchingIgnoresPage(rows, p, PageAt(p, limit, k));
  }

  /** Enough pages give every match once, in order, and every page reports the same total. */
  lemma PagesComplete(rows: Rows, p: ListParams, limit: u32, n: nat)
    requires n > 0 && (n - 1) * limit <= U32_MAX && n * limit >= |Matching(rows, p)|
    ensures Pages(rows, p, limit, n) == Matching(rows, p)
    ensures forall k: nat :: k < n ==>
              && k * limit <= U32_MAX
              && (|Matching(rows, p)| <= U32_MAX ==> Listing(rows, PageAt(p, limit, k)).1 == |Matching(rows, p)|)
  {
    hide Listing, Matching, Pages, PageAt;
    PagesArePrefix(rows, p, limit, n);
    forall k: nat | k < n
      ensures k * limit <= U32_MAX
      ensures |Matching(rows, p)| <= U32_MAX ==> Listing(rows, PageAt(p, limit, k)).1 == |Matching(rows, p)|
    {
      PageTotal(rows, p, limit, k, n);
    }
  }

  /** For every page size there are such pages, while the matches can be counted in a u32. */
  lemma PagesJoin(rows: Rows, p: ListParams, limit: u32) returns (n: nat)
    requires limit > 0 && |Matching(rows, p)| <= U32_MAX
    ensures n > 0 && (n - 1) * limit <= U32_MAX && Pages(rows, p, limit, n) == Matching(rows, p)
    ensures forall k: nat :: k < n ==>
              k * limit <= U32_MAX && Listing(rows, PageAt(p, limit, k)).1 == |Matching(rows, p)|
  {
    hide Listing, Matching, Pages, PageAt;
    var count := |Matching(rows, p)|;
    n := count / limit + 1;
    assert (n - 1) * limit == count - count % limit;
    assert n * limit == (n - 1) * limit + limit;
    PagesComplete(rows, p, limit, n);
  }

  /**
   What a listing shows: the matches from the offset on, at most as many as the limit.
   Without an offset it starts at the first match, and without a limit it shows 50.
   */
  lemma ListingShows(rows: Rows, p: ListParams)
    ensures
      var m := Matching(rows, p);
      var start := if p.offset.None? then 0 else p.offset.value;
      var most := if p.limit.None? then 50 else p.limit.value;
      var (items, total) := Listing(rows, p);
      && |items| == (if |m| <= start then 0 else if |m| - start <= most then |m| - start else most)
      && (forall i :: 0 <= i < |items| ==> items[i] == m[start + i])
      && total == |m| % 0x1_0000_0000
  {
    hide Matching;
  }

  /** An entry is shown for each network and scheme of each of its requirements, and for no other. */
  lemma AcceptsAny(r: DiscoveryResource, q: PaymentRequirements, rest: seq<PaymentRequirements>, text: string)
    ensures !AcceptsNetwork(r.(accepts := []), text) && !AcceptsScheme(r.(accepts := []), text)
    ensures AcceptsNetwork(r.(accepts := [q] + rest), text) <==>
            q.network == text || AcceptsNetwork(r.(accepts := rest), text)
    ensures AcceptsScheme(r.(accepts := [q] + rest), text) <==>
            q.scheme == text || AcceptsScheme(r.(accepts := rest), text)
  {
    assert ([q] + rest)[0] == q;
    assert forall i :: 0 <= i < |rest| ==> ([q] + rest)[i + 1] == rest[i];
  }

  /** A plain listing is the first 50 entries, in order. */
  lemma {:induction false} PlainListing(rows: Rows)
    ensures
      var plain := ListParams(None, None, None, None, None);
      && Matching(rows, plain) == rows
      && Listing(rows, plain).0 == if |rows| <= 50 then rows else rows[..50]
  {
    var plain := ListParams(None, None, None, None, None);
    AllMatch(rows, plain);
    ListingShows(rows, plain);
    hide Listing, Matching;
  }

  lemma {:induction false} AllMatch(rows: Rows, p: ListParams)
    requires p.kind.None? && p.network.None? && p.scheme.None?
    ensures Matching(rows, p) == rows
  {
    if rows == [] {
    } else {
      AllMatch(rows[..|rows| - 1], p);
      MatchingLast(rows, p);
      InitAndLast(rows);
      hide Matching;
    }
  }

  lemma MatchingHas(rows: Rows, p: ListParams, r: DiscoveryResource)
    ensures r in Matching(rows, p) <==> r in rows && Meets(p, r)
  {
    var hits, m := Hits(rows, p), Matching(rows, p);
    if r in rows && Meets(p, r) {
      var h :| 0 <= h < |rows| && rows[h] == r;
      assert h in hits;
      var i :| 0 <= i < |hits| && hits[i] == h;
      assert m[i] == r;
    }
    if r in m {
      var i :| 0 <= i < |m| && m[i] == r;
      assert hits[i] in hits;
    }
  }
}
