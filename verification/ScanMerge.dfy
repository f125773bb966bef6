/**
 Scan results are merged one by one into at most 32 networks, sorted by signal, one per SSID. `Top` is the offline
 definition over everything seen; `ScanResults.Merge` keeps it, whatever order the library sort gives to ties.
 */
module ScanMerge {
  import opened Common
  import opened Utf8

  const CAPACITY := 32

  type Ssid = seq<byte>

  datatype Network = Network(ssid: Ssid, rssi: int)

  ghost predicate ValidSsid(ssid: Ssid) { ssid != [] && IsText(ssid, 32) }

  /** The valid SSIDs among the results. */
  ghost function Names(seen: seq<Network>): set<Ssid> {
    set i | 0 <= i < |seen| && ValidSsid(seen[i].ssid) :: seen[i].ssid
  }

  /** The strongest signal an SSID was ever seen with. */
  ghost predicate Best(seen: seq<Network>, ssid: Ssid, rssi: int) {
    && Network(ssid, rssi) in seen
    && forall i :: 0 <= i < |seen| && seen[i].ssid == ssid ==> seen[i].rssi <= rssi
  }

  predicate Keeps(kept: seq<Network>, ssid: Ssid) {
    exists i :: 0 <= i < |kept| && kept[i].ssid == ssid
  }

  ghost predicate DistinctSsids(kept: seq<Network>) {
    forall i, j :: 0 <= i < j < |kept| ==> kept[i].ssid != kept[j].ssid
  }

  ghost predicate Descending(kept: seq<Network>) {
    forall i, j :: 0 <= i < j < |kept| ==> kept[i].rssi >= kept[j].rssi
  }

  /** Each kept network is a valid SSID with its strongest signal. */
  ghost predicate Genuine(seen: seq<Network>, kept: seq<Network>) {
    forall i :: 0 <= i < |kept| ==> kept[i].ssid in Names(seen) && Best(seen, kept[i].ssid, kept[i].rssi)
  }

  ghost predicate Omits(seen: seq<Network>, kept: seq<Network>, ssid: Ssid, r: int) {
    ssid in Names(seen) && !Keeps(kept, ssid) && Best(seen, ssid, r)
  }

  predicate Below(r: int, kept: seq<Network>) {
    forall i :: 0 <= i < |kept| ==> r <= kept[i].rssi
  }

  /** Which networks are kept, leaving their order aside. */
  ghost predicate Chosen(seen: seq<Network>, kept: seq<Network>) {
    && |kept| == Min(CAPACITY, |Names(seen)|) && DistinctSsids(kept) && Genuine(seen, kept)
    && (forall ssid, r :: Omits(seen, kept, ssid, r) ==> Below(r, kept))
  }

  /**
   The offline definition: the kept SSIDs are valid and distinct, sorted by signal, each with the strongest signal
   ever seen for it; there are as many as there are valid SSIDs, up to 32; no omitted SSID was ever
   stronger than a kept one; and the list is truncated exactly when there are more than 32 valid SSIDs.
   */
  ghost predicate Top(seen: seq<Network>, kept: seq<Network>, truncated: bool) {
    Chosen(seen, kept) && Descending(kept) && (truncated <==> |Names(seen)| > CAPACITY)
  }

  // ---------------------------------------------------------------- one merge

  function IndexOf(kept: seq<Network>, ssid: Ssid): (i: nat)
    ensures i <= |kept| && (i < |kept| ==> kept[i].ssid == ssid)
    ensures forall k :: 0 <= k < i ==> kept[k].ssid != ssid
  {
    if kept == [] || kept[0].ssid == ssid then 0 else 1 + IndexOf(kept[1..], ssid)
  }

  /** The list before sorting, and whether the candidate met a full list. */
  function Placed(kept: seq<Network>, c: Network): (seq<Network>, bool)
    requires |kept| <= CAPACITY
  {
    var i := IndexOf(kept, c.ssid);
    if i < |kept| then (if kept[i].rssi >= c.rssi then kept else kept[i := c], false)
    else if |kept| < CAPACITY then (kept + [c], false)
    else (if kept[CAPACITY - 1].rssi >= c.rssi then kept else kept[CAPACITY - 1 := c], true)
  }

  /** What `std::sort` guarantees: the same networks, strongest first; the order of equal signals is open. */
  ghost predicate SortOf(before: seq<Network>, after: seq<Network>) {
    multiset(after) == multiset(before) && Descending(after)
  }

  lemma SortOfSame(before: seq<Network>, after: seq<Network>)
    requires SortOf(before, after)
    ensures |after| == |before| && forall n :: n in after <==> n in before
    ensures DistinctSsids(before) ==> DistinctSsids(after)
  {
    assert |multiset(after)| == |multiset(before)|;
    forall n ensures n in after <==> n in before {
      assert n in after <==> n in multiset(after);
      assert n in before <==> n in multiset(before);
    }
    if DistinctSsids(before) {
      forall i, j | 0 <= i < j < |after| ensures after[i].ssid != after[j].ssid {
        SharedSsid(before, after, i, j);
      }
    }
  }

  lemma SharedSsid(before: seq<Network>, after: seq<Network>, i: nat, j: nat)
    requires multiset(after) == multiset(before) && DistinctSsids(before) && i < j < |after|
    ensures after[i].ssid != after[j].ssid
  {
    if after[i] == after[j] {
      TwiceCounted(after, i, j);
      OnceCounted(before, after[i]);
    } else {
      assert after[i] in multiset(before) && after[j] in multiset(before);
      var a :| 0 <= a < |before| && before[a] == after[i];
      var b :| 0 <= b < |before| && before[b] == after[j];
      assert before[a].ssid != before[b].ssid;
    }
  }

  lemma TwiceCounted(s: seq<Network>, i: nat, j: nat)
    requires i < j < |s| && s[i] == s[j]
    ensures multiset(s)[s[i]] >= 2
  {
    assert s == s[..j] + ([s[j]] + s[j + 1..]);
    assert s[..j][i] == s[i] && s[i] in multiset(s[..j]);
  }

  lemma {:induction false} OnceCounted(s: seq<Network>, n: Network)
    requires DistinctSsids(s)
    ensures multiset(s)[n] <= 1
  {
    if s != [] {
      var k := |s| - 1;
      assert s == s[..k] + [s[k]];
      OnceCounted(s[..k], n);
      forall i | 0 <= i < k ensures s[..k][i] != s[k] {
        assert s[..k][i] == s[i] && s[i].ssid != s[k].ssid;
      }
      assert s[k] !in multiset(s[..k]);
    }
  }

  lemma NamesSnoc(seen: seq<Network>, c: Network)
    ensures Names(seen + [c]) == if ValidSsid(c.ssid) then Names(seen) + {c.ssid} else Names(seen)
  {
    var all := seen + [c];
    assert all[|seen|] == c && forall i :: 0 <= i < |seen| ==> all[i] == seen[i];
    forall x | x in Names(seen) ensures x in Names(all) {
      var i :| 0 <= i < |seen| && ValidSsid(seen[i].ssid) && seen[i].ssid == x;
      assert all[i].ssid == x;
    }
    if ValidSsid(c.ssid) { assert all[|seen|].ssid in Names(all); }
  }

  lemma BestSnoc(seen: seq<Network>, c: Network, ssid: Ssid, r: int)
    ensures c.ssid != ssid ==> (Best(seen + [c], ssid, r) <==> Best(seen, ssid, r))
    ensures c.ssid == ssid && Best(seen, ssid, r) && c.rssi <= r ==> Best(seen + [c], ssid, r)
    ensures c.ssid == ssid && (ssid !in SsidsOf(seen) || (exists b :: b <= c.rssi && Best(seen, ssid, b))) ==> Best(seen + [c], ssid, c.rssi)
    ensures c.ssid == ssid && Best(seen + [c], ssid, r) ==> r == c.rssi || Best(seen, ssid, r)
  {
    var all := seen + [c];
    assert all[|seen|] == c && forall i :: 0 <= i < |seen| ==> all[i] == seen[i];
  }

  ghost function SsidsOf(networks: seq<Network>): set<Ssid> {
    set i | 0 <= i < |networks| :: networks[i].ssid
  }

  lemma BestUnique(seen: seq<Network>, ssid: Ssid, a: int, b: int)
    requires Best(seen, ssid, a) && Best(seen, ssid, b)
    ensures a == b
  {}

  lemma {:induction false} BestExists(seen: seq<Network>, ssid: Ssid) returns (r: int)
    requires ssid in SsidsOf(seen)
    ensures Best(seen, ssid, r)
  {
    var n := |seen| - 1;
    var before, c := seen[..n], seen[n];
    assert seen == before + [c];
    if ssid in SsidsOf(before) {
      var b := BestExists(before, ssid);
      r := if c.ssid == ssid && c.rssi > b then c.rssi else b;
    } else {
      assert c.ssid == ssid;
      r := c.rssi;
    }
  }

  lemma {:induction false} DistinctCount(kept: seq<Network>)
    requires DistinctSsids(kept)
    ensures |SsidsOf(kept)| == |kept|
  {
    if kept != [] {
      var n := |kept| - 1;
      DistinctCount(kept[..n]);
      assert SsidsOf(kept) == SsidsOf(kept[..n]) + {kept[n].ssid};
    }
  }

  lemma SubsetCount(a: set<Ssid>, b: set<Ssid>)
    requires a <= b
    ensures |a| <= |b| && (a != b ==> |a| < |b|)
  {
    assert b == a + (b - a);
  }

  /** The kept SSIDs are among the names; if some name is omitted, there are more names than kept networks. */
  lemma KeptCount(seen: seq<Network>, kept: seq<Network>, omitted: Ssid)
    requires Chosen(seen, kept) && omitted in Names(seen) && !Keeps(kept, omitted)
    ensures |kept| == CAPACITY < |Names(seen)|
  {
    DistinctCount(kept);
    assert omitted !in SsidsOf(kept);
    SubsetCount(SsidsOf(kept), Names(seen));
  }

  lemma InvalidKeeps(seen: seq<Network>, kept: seq<Network>, c: Network)
    requires Chosen(seen, kept) && !ValidSsid(c.ssid)
    ensures Chosen(seen + [c], kept) && Names(seen + [c]) == Names(seen)
  {
    NamesSnoc(seen, c);
    assert c.ssid !in Names(seen);
    OthersSame(seen, kept, c);
    forall ssid, r | Omits(seen + [c], kept, ssid, r) ensures Below(r, kept) {
      BestSnoc(seen, c, ssid, r);
      assert Omits(seen, kept, ssid, r);
    }
  }

  /** Networks of other SSIDs stay genuine. */
  lemma OthersSame(seen: seq<Network>, kept: seq<Network>, c: Network)
    requires Genuine(seen, kept)
    ensures forall j :: 0 <= j < |kept| && kept[j].ssid != c.ssid ==>
              kept[j].ssid in Names(seen + [c]) && Best(seen + [c], kept[j].ssid, kept[j].rssi)
  {
    NamesSnoc(seen, c);
    forall j | 0 <= j < |kept| && kept[j].ssid != c.ssid ensures Best(seen + [c], kept[j].ssid, kept[j].rssi) {
      BestSnoc(seen, c, kept[j].ssid, kept[j].rssi);
    }
  }

  /** An omitted SSID other than the candidate was omitted before. */
  lemma OmittedBefore(seen: seq<Network>, kept: seq<Network>, c: Network, ssid: Ssid, r: int)
    requires Chosen(seen, kept) && Omits(seen + [c], kept, ssid, r) && ssid != c.ssid
    ensures Below(r, kept)
  {
    NamesSnoc(seen, c);
    BestSnoc(seen, c, ssid, r);
    assert Omits(seen, kept, ssid, r);
  }

  lemma WeakerKeeps(seen: seq<Network>, kept: seq<Network>, c: Network, i: nat)
    requires Chosen(seen, kept) && i < |kept| && kept[i].ssid == c.ssid && kept[i].rssi >= c.rssi
    ensures Chosen(seen + [c], kept) && Names(seen + [c]) == Names(seen)
  {
    NamesSnoc(seen, c);
    assert Names(seen) + {c.ssid} == Names(seen);
    OthersSame(seen, kept, c);
    BestSnoc(seen, c, c.ssid, kept[i].rssi);
    assert Genuine(seen + [c], kept) by { OnlyOne(kept, i); }
    forall ssid, r | Omits(seen + [c], kept, ssid, r) ensures Below(r, kept) {
      OmittedBefore(seen, kept, c, ssid, r);
    }
  }

  lemma OnlyOne(kept: seq<Network>, i: nat)
    requires DistinctSsids(kept) && i < |kept|
    ensures forall j :: 0 <= j < |kept| && j != i ==> kept[j].ssid != kept[i].ssid
  {}

  lemma StrongerKeeps(seen: seq<Network>, kept: seq<Network>, c: Network, i: nat)
    requires Chosen(seen, kept) && i < |kept| && kept[i].ssid == c.ssid && kept[i].rssi < c.rssi
    ensures Chosen(seen + [c], kept[i := c]) && Names(seen + [c]) == Names(seen)
  {
    NamesSnoc(seen, c);
    assert Names(seen) + {c.ssid} == Names(seen);
    OthersSame(seen, kept, c);
    OnlyOne(kept, i);
    assert Best(seen, c.ssid, kept[i].rssi);
    BestSnoc(seen, c, c.ssid, c.rssi);
    var p := kept[i := c];
    assert Genuine(seen + [c], p);
    forall ssid, r | Omits(seen + [c], p, ssid, r) ensures Below(r, p) {
      SameSsids(kept, i, c, ssid);
      assert Keeps(kept, c.ssid);
      OmittedBefore(seen, kept, c, ssid, r);
    }
  }

  lemma SameSsids(kept: seq<Network>, i: nat, c: Network, ssid: Ssid)
    requires i < |kept| && kept[i].ssid == c.ssid
    ensures Keeps(kept[i := c], ssid) <==> Keeps(kept, ssid)
  {
    var p := kept[i := c];
    assert forall k :: 0 <= k < |kept| ==> kept[k].ssid == p[k].ssid;
  }

  lemma RoomKeeps(seen: seq<Network>, kept: seq<Network>, c: Network)
    requires Chosen(seen, kept) && ValidSsid(c.ssid) && !Keeps(kept, c.ssid) && |kept| < CAPACITY
    ensures Chosen(seen + [c], kept + [c]) && |Names(seen + [c])| == |kept| + 1
  {
    NamesSnoc(seen, c);
    AllKept(seen, kept, c);
    NewSsid(seen, c);
    OthersSame(seen, kept, c);
    BestSnoc(seen, c, c.ssid, c.rssi);
    GenuineSnoc(seen, kept, c);
    NoneOmitted(seen + [c], kept + [c]);
  }

  lemma GenuineSnoc(seen: seq<Network>, kept: seq<Network>, c: Network)
    requires Genuine(seen + [c], kept) && DistinctSsids(kept) && !Keeps(kept, c.ssid)
    requires c.ssid in Names(seen + [c]) && Best(seen + [c], c.ssid, c.rssi)
    ensures Genuine(seen + [c], kept + [c]) && DistinctSsids(kept + [c])
  {
    var p := kept + [c];
    assert p[|kept|] == c && forall k :: 0 <= k < |kept| ==> p[k] == kept[k];
  }

  lemma NoneOmitted(seen: seq<Network>, kept: seq<Network>)
    requires forall ssid :: ssid in Names(seen) ==> Keeps(kept, ssid)
    ensures forall ssid, r :: Omits(seen, kept, ssid, r) ==> Below(r, kept)
  {}

  lemma AllKept(seen: seq<Network>, kept: seq<Network>, c: Network)
    requires Chosen(seen, kept) && ValidSsid(c.ssid) && !Keeps(kept, c.ssid) && |kept| < CAPACITY
    ensures c.ssid !in Names(seen) && |Names(seen)| == |kept|
    ensures forall ssid :: ssid in Names(seen + [c]) ==> Keeps(kept + [c], ssid)
  {
    NamesSnoc(seen, c);
    NothingOmitted(seen, kept);
    var p := kept + [c];
    forall ssid | ssid in Names(seen + [c]) ensures Keeps(p, ssid) {
      if ssid == c.ssid {
        assert p[|kept|].ssid == ssid;
      } else {
        var k :| 0 <= k < |kept| && kept[k].ssid == ssid;
        assert p[k].ssid == ssid;
      }
    }
  }

  /** With room left every name is kept. */
  lemma NothingOmitted(seen: seq<Network>, kept: seq<Network>)
    requires Chosen(seen, kept) && |kept| < CAPACITY
    ensures forall ssid :: ssid in Names(seen) ==> Keeps(kept, ssid)
  {
    forall ssid | ssid in Names(seen) ensures Keeps(kept, ssid) {
      if !Keeps(kept, ssid) { KeptCount(seen, kept, ssid); }
    }
  }

  lemma NewSsid(seen: seq<Network>, c: Network)
    requires ValidSsid(c.ssid) && c.ssid !in Names(seen)
    ensures c.ssid !in SsidsOf(seen)
  {}

  lemma FullKeeps(seen: seq<Network>, kept: seq<Network>, c: Network)
    requires Chosen(seen, kept) && Descending(kept) && ValidSsid(c.ssid) && !Keeps(kept, c.ssid) && |kept| == CAPACITY
    requires kept[CAPACITY - 1].rssi >= c.rssi
    ensures Chosen(seen + [c], kept) && |Names(seen + [c])| > CAPACITY
  {
    FullCount(seen, kept, c);
    OthersSame(seen, kept, c);
    assert Genuine(seen + [c], kept);
    forall ssid, r | Omits(seen + [c], kept, ssid, r) ensures Below(r, kept) {
      if ssid == c.ssid {
        BestSnoc(seen, c, ssid, r);
        if Best(seen, ssid, r) { BestIsOmitted(seen, kept, ssid, r); }
      } else {
        OmittedBefore(seen, kept, c, ssid, r);
      }
    }
  }

  lemma BestIsOmitted(seen: seq<Network>, kept: seq<Network>, ssid: Ssid, r: int)
    requires Chosen(seen, kept) && ValidSsid(ssid) && !Keeps(kept, ssid) && Best(seen, ssid, r)
    ensures ssid in Names(seen) && Below(r, kept)
  {
    var i :| 0 <= i < |seen| && seen[i] == Network(ssid, r);
    assert seen[i].ssid in Names(seen);
    assert Omits(seen, kept, ssid, r);
  }

  lemma FullCount(seen: seq<Network>, kept: seq<Network>, c: Network)
    requires Chosen(seen, kept) && ValidSsid(c.ssid) && !Keeps(kept, c.ssid) && |kept| == CAPACITY
    ensures |Names(seen + [c])| > CAPACITY
  {
    NamesSnoc(seen, c);
    DistinctCount(kept);
    assert c.ssid !in SsidsOf(kept);
    SubsetCount(SsidsOf(kept), Names(seen + [c]));
  }

  lemma EvictKeeps(seen: seq<Network>, kept: seq<Network>, c: Network)
    requires Chosen(seen, kept) && Descending(kept) && ValidSsid(c.ssid) && !Keeps(kept, c.ssid) && |kept| == CAPACITY
    requires kept[CAPACITY - 1].rssi < c.rssi
    ensures Chosen(seen + [c], kept[CAPACITY - 1 := c]) && |Names(seen + [c])| > CAPACITY
  {
    FullCount(seen, kept, c);
    OthersSame(seen, kept, c);
    EvictedCandidate(seen, kept, c);
    NamesSnoc(seen, c);
    var p := kept[CAPACITY - 1 := c];
    assert Genuine(seen + [c], p);
    assert DistinctSsids(p);
    forall ssid, r | Omits(seen + [c], p, ssid, r) ensures Below(r, p) {
      OmittedAfterEviction(seen, kept, c, ssid, r);
    }
  }

  lemma OmittedAfterEviction(seen: seq<Network>, kept: seq<Network>, c: Network, ssid: Ssid, r: int)
    requires Chosen(seen, kept) && Descending(kept) && |kept| == CAPACITY && kept[CAPACITY - 1].rssi < c.rssi
    requires Omits(seen + [c], kept[CAPACITY - 1 := c], ssid, r)
    ensures Below(r, kept[CAPACITY - 1 := c])
  {
    var last := CAPACITY - 1;
    var p := kept[last := c];
    assert p[last].ssid == c.ssid;
    BestSnoc(seen, c, ssid, r);
    if Keeps(kept, ssid) {
      var k :| 0 <= k < |kept| && kept[k].ssid == ssid;
      assert forall j :: 0 <= j < last ==> p[j] == kept[j];
      BestUnique(seen, ssid, r, kept[last].rssi);
    } else {
      OmittedBefore(seen, kept, c, ssid, r) by { assert Omits(seen + [c], kept, ssid, r); }
    }
  }

  /** A candidate stronger than every kept network's weakest was never seen as strong before. */
  lemma EvictedCandidate(seen: seq<Network>, kept: seq<Network>, c: Network)
    requires Chosen(seen, kept) && ValidSsid(c.ssid) && !Keeps(kept, c.ssid) && |kept| == CAPACITY
    requires kept[CAPACITY - 1].rssi < c.rssi
    ensures Best(seen + [c], c.ssid, c.rssi)
  {
    if c.ssid in SsidsOf(seen) {
      var b := BestExists(seen, c.ssid);
      BestIsOmitted(seen, kept, c.ssid, b);
      assert b <= c.rssi && Best(seen, c.ssid, b);
    }
    BestSnoc(seen, c, c.ssid, c.rssi);
  }

  /** One merge, then any sort, keeps the offline definition. */
  lemma MergeKeepsTop(seen: seq<Network>, kept: seq<Network>, truncated: bool, c: Network, after: seq<Network>)
    requires Top(seen, kept, truncated) && ValidSsid(c.ssid) && SortOf(Placed(kept, c).0, after)
    ensures Top(seen + [c], after, truncated || Placed(kept, c).1)
  {
    var i := IndexOf(kept, c.ssid);
    var (p, full) := Placed(kept, c);
    if i < |kept| {
      if kept[i].rssi >= c.rssi { WeakerKeeps(seen, kept, c, i); } else { StrongerKeeps(seen, kept, c, i); }
    } else if |kept| < CAPACITY {
      RoomKeeps(seen, kept, c);
    } else if kept[CAPACITY - 1].rssi >= c.rssi {
      FullKeeps(seen, kept, c);
    } else {
      EvictKeeps(seen, kept, c);
    }
    SortKeepsChosen(seen + [c], p, after);
  }

  lemma SortKeepsChosen(seen: seq<Network>, before: seq<Network>, after: seq<Network>)
    requires Chosen(seen, before) && SortOf(before, after)
    ensures Chosen(seen, after)
  {
    SortOfSame(before, after);
    forall i | 0 <= i < |after| ensures after[i] in before && after[i].ssid in Names(seen) && Best(seen, after[i].ssid, after[i].rssi) {
      assert after[i] in after;
    }
    forall i | 0 <= i < |before| ensures Keeps(after, before[i].ssid) {
      assert before[i] in before;
    }
    forall ssid, r | Omits(seen, after, ssid, r) ensures Below(r, after) {
      assert Omits(seen, before, ssid, r);
      forall i | 0 <= i < |after| ensures r <= after[i].rssi {
        assert after[i] in after && after[i] in before;
      }
    }
  }

  // ---------------------------------------------------------------- any sequence of results

  datatype Results = Results(kept: seq<Network>, truncated: bool)

  /** One result merged; how ties are ordered afterwards is left to the sort. */
  ghost predicate Merged(r: Results, c: Network, r': Results) {
    if !ValidSsid(c.ssid) then r' == r
    else |r.kept| <= CAPACITY && SortOf(Placed(r.kept, c).0, r'.kept) && r'.truncated == (r.truncated || Placed(r.kept, c).1)
  }

  /** `lists` are the results before, between and after the merges of `seen`, each step with a sort of its own. */
  ghost predicate Scanned(seen: seq<Network>, lists: seq<Results>) {
    && |lists| == |seen| + 1 && lists[0] == Results([], false)
    && forall i :: 0 <= i < |seen| ==> Merged(lists[i], seen[i], lists[i + 1])
  }

  /** After every sequence of results, whatever the sorts do with ties, the list is the offline one of all of them. */
  lemma {:induction false} ScanKeepsTop(seen: seq<Network>, lists: seq<Results>)
    requires Scanned(seen, lists)
    ensures Top(seen, lists[|seen|].kept, lists[|seen|].truncated)
  {
    if seen == [] {
      assert Names([]) == {};
    } else {
      var n := |seen| - 1;
      var before, c, r := seen[..n], seen[n], lists[n];
      assert Scanned(before, lists[..n + 1]);
      ScanKeepsTop(before, lists[..n + 1]);
      assert seen == before + [c];
      assert Merged(lists[n], seen[n], lists[n + 1]);
      if ValidSsid(c.ssid) {
        MergeKeepsTop(before, r.kept, r.truncated, c, lists[n + 1].kept);
      } else {
        InvalidKeeps(before, r.kept, c);
      }
    }
  }

  // ---------------------------------------------------------------- the offline definition determines the signals

  /** However ties are broken, two lists that meet the definition show the same signals, position by position. */
  lemma TopIsUnique(seen: seq<Network>, a: seq<Network>, ta: bool, b: seq<Network>, tb: bool)
    requires Top(seen, a, ta) && Top(seen, b, tb)
    ensures ta == tb && |a| == |b| && forall i :: 0 <= i < |a| ==> a[i].rssi == b[i].rssi
  {
    forall i | 0 <= i < |a| ensures a[i].rssi == b[i].rssi {
      NoStronger(seen, a, b, i);
      NoStronger(seen, b, a, i);
    }
  }

  lemma NoStronger(seen: seq<Network>, a: seq<Network>, b: seq<Network>, i: nat)
    requires Chosen(seen, a) && Descending(a) && Chosen(seen, b) && Descending(b) && i < |a| == |b|
    ensures a[i].rssi <= b[i].rssi
  {
    var first, before := SsidsOf(a[..i + 1]), SsidsOf(b[..i]);
    DistinctCount(a[..i + 1]);
    DistinctCount(b[..i]);
    if a[i].rssi > b[i].rssi {
      forall ssid | ssid in first ensures ssid in before {
        var k :| 0 <= k < |a[..i + 1]| && a[..i + 1][k].ssid == ssid;
        assert a[k].rssi >= a[i].rssi;
        StrongNamesLead(seen, b, i, a[k]);
      }
      SubsetCount(first, before);
    }
  }

  lemma StrongNamesLead(seen: seq<Network>, b: seq<Network>, i: nat, n: Network)
    requires Chosen(seen, b) && Descending(b) && i < |b|
    requires n.ssid in Names(seen) && Best(seen, n.ssid, n.rssi) && n.rssi > b[i].rssi
    ensures n.ssid in SsidsOf(b[..i])
  {
    assert !Omits(seen, b, n.ssid, n.rssi);
    var k :| 0 <= k < |b| && b[k].ssid == n.ssid;
    BestUnique(seen, n.ssid, n.rssi, b[k].rssi);
    assert k < i;
    assert b[..i][k].ssid == n.ssid;
  }

  // ---------------------------------------------------------------- the results in place

  function InsertNetwork(sorted: seq<Network>, n: Network): seq<Network> {
    if sorted == [] || sorted[0].rssi < n.rssi then [n] + sorted else [sorted[0]] + InsertNetwork(sorted[1..], n)
  }

  /** A sort by falling signal. */
  function SortNetworks(networks: seq<Network>): seq<Network> {
    if networks == [] then []
    else InsertNetwork(SortNetworks(networks[..|networks| - 1]), networks[|networks| - 1])
  }

  lemma {:induction false} InsertDescends(sorted: seq<Network>, n: Network)
    requires Descending(sorted)
    ensures Descending(InsertNetwork(sorted, n)) && forall x :: x in InsertNetwork(sorted, n) ==> x == n || x in sorted
    decreases |sorted|
  {
    if sorted != [] && sorted[0].rssi >= n.rssi {
      var rest := sorted[1..];
      InsertDescends(rest, n);
      var t := InsertNetwork(rest, n);
      assert sorted == [sorted[0]] + rest;
      forall i | 0 <= i < |t| ensures sorted[0].rssi >= t[i].rssi {
        assert t[i] in t;
        assert forall k :: 0 <= k < |rest| ==> rest[k] == sorted[k + 1];
      }
    }
  }

  lemma {:induction false} InsertPermutes(sorted: seq<Network>, n: Network)
    ensures multiset(InsertNetwork(sorted, n)) == multiset(sorted) + multiset{n}
    decreases |sorted|
  {
    if sorted != [] && sorted[0].rssi >= n.rssi {
      InsertPermutes(sorted[1..], n);
      assert sorted == [sorted[0]] + sorted[1..];
    }
  }

  lemma {:induction false} SortSorts(networks: seq<Network>)
    ensures SortOf(networks, SortNetworks(networks))
  {
    if networks != [] {
      var k := |networks| - 1;
      var before, n := networks[..k], networks[k];
      SortSorts(before);
      InsertDescends(SortNetworks(before), n);
      InsertPermutes(SortNetworks(before), n);
      assert networks == before + [n];
    }
  }

  class ScanResults {
    const networks: array<Network>
    var count: nat
    var truncated: bool
    ghost var seen: seq<Network>

    ghost predicate Valid()
      reads this, networks
    {
      networks.Length == CAPACITY && count <= CAPACITY && Top(seen, networks[..count], truncated)
    }

    constructor ()
      ensures Valid() && seen == [] && fresh(networks)
    {
      networks := new Network[CAPACITY](_ => Network([], 0));
      count, truncated, seen := 0, false, [];
      new;
      assert Names([]) == {};
    }

    method Clear()
      requires Valid()
      modifies this
      ensures Valid() && seen == [] && count == 0 && !truncated
    {
      count, truncated, seen := 0, false, [];
      assert Names([]) == {};
    }

    method Merge(candidate: Network)
      requires Valid()
      modifies this, networks
      ensures Valid() && seen == old(seen) + [candidate]
    {
      ghost var before, was, known := seen, networks[..count], truncated;
      var valid := ValidSsidText(candidate.ssid);
      seen := seen + [candidate];
      if !valid {
        InvalidKeeps(before, was, candidate);
        return;
      }
      var changed := Place(candidate);
      if changed {
        SortInPlace();
      }
      MergeKeepsTop(before, was, known, candidate, networks[..count]);
    }

    /** The candidate in its place, before the sort; nothing changes if it is no stronger than what it would replace. */
    method Place(candidate: Network) returns (changed: bool)
      requires networks.Length == CAPACITY && count <= CAPACITY
      modifies `count, `truncated, networks
      ensures count <= CAPACITY && networks[..count] == Placed(old(networks[..count]), candidate).0
      ensures truncated == (old(truncated) || Placed(old(networks[..count]), candidate).1)
      ensures !changed ==> networks[..count] == old(networks[..count])
    {
      var index := FindSsid(candidate.ssid);
      if index < count && networks[index].rssi >= candidate.rssi {
        return false;
      }
      if index == count {
        if count == networks.Length {
          truncated := true;
          index := count - 1;
          if networks[index].rssi >= candidate.rssi {
            return false;
          }
        } else {
          count := count + 1;
        }
      }
      networks[index] := candidate;
      return true;
    }

    /** The kept entry of this name, or the count. */
    method FindSsid(ssid: Ssid) returns (index: nat)
      requires networks.Length == CAPACITY && count <= CAPACITY
      ensures index == IndexOf(networks[..count], ssid)
    {
      index := 0;
      while index < count && networks[index].ssid != ssid
        invariant index <= count && forall k :: 0 <= k < index ==> networks[..count][k].ssid != ssid
      {
        index := index + 1;
      }
      IndexOfIs(networks[..count], ssid, index);
    }

    /** Sorts the kept part, strongest first, and leaves the rest of the array alone. */
    method SortInPlace()
      requires networks.Length == CAPACITY && count <= CAPACITY
      modifies networks
      ensures SortOf(old(networks[..count]), networks[..count])
      ensures networks[count..] == old(networks[count..])
    {
      var sorted := SortNetworks(networks[..count]);
      SortSorts(networks[..count]);
      SortOfSame(networks[..count], sorted);
      forall i | 0 <= i < count {
        networks[i] := sorted[i];
      }
      assert networks[..count] == sorted;
    }
  }

  method ValidSsidText(ssid: Ssid) returns (ok: bool)
    ensures ok <==> ValidSsid(ssid)
  {
    ok := ValidText(ssid, 32);
    ok := ok && ssid != [];
  }

  lemma IndexOfIs(kept: seq<Network>, ssid: Ssid, i: nat)
    requires i <= |kept| && (i < |kept| ==> kept[i].ssid == ssid) && forall k :: 0 <= k < i ==> kept[k].ssid != ssid
    ensures i == IndexOf(kept, ssid) && (i == |kept| ==> !Keeps(kept, ssid))
  {}
}
