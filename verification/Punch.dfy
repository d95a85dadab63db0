/** Hole-punch probing: the shuffled ports, the bounded probe schedule and the punch packet. */
module Punch {
  import opened Bytes

  // ----- Fisher-Yates -----

  const PORTS: nat := 65535

  function Swap(s: seq<int>, i: nat, j: nat): (r: seq<int>)
    requires i < |s| && j < |s|
  {
    s[i := s[j]][j := s[i]]
  }

  /** draws[0] is the partner of position |draws|, draws[1] that of the position below it, and so on. */
  predicate Drawn(draws: seq<nat>) {
    forall k :: 0 <= k < |draws| ==> draws[k] <= |draws| - k
  }

  lemma DrawnTail(draws: seq<nat>)
    requires Drawn(draws) && draws != []
    ensures Drawn(draws[1..])
  {
    forall k | 0 <= k < |draws[1..]|
      ensures draws[1..][k] <= |draws[1..]| - k
    {
      assert draws[1..][k] == draws[k + 1];
    }
  }

  function Shuffle(s: seq<int>, draws: seq<nat>): (r: seq<int>)
    requires Drawn(draws) && |draws| < |s|
    ensures |r| == |s|
    decreases |draws|
  {
    if draws == [] then s
    else
      DrawnTail(draws);
      Shuffle(Swap(s, |draws|, draws[0]), draws[1..])
  }

  predicate Distinct(s: seq<int>) {
    forall i, j :: 0 <= i < j < |s| ==> s[i] != s[j]
  }

  lemma SwapPermutes(s: seq<int>, i: nat, j: nat)
    requires i < |s| && j < |s|
    ensures multiset(Swap(s, i, j)) == multiset(s)
    ensures Distinct(s) ==> Distinct(Swap(s, i, j))
  {}

  /** Every shuffle is a permutation, and of distinct values a sequence of distinct values. */
  lemma {:induction false} ShufflePermutes(s: seq<int>, draws: seq<nat>)
    requires Drawn(draws) && |draws| < |s|
    ensures multiset(Shuffle(s, draws)) == multiset(s)
    ensures Distinct(s) ==> Distinct(Shuffle(s, draws))
    decreases |draws|
  {
    if draws != [] {
      DrawnTail(draws);
      SwapPermutes(s, |draws|, draws[0]);
      ShufflePermutes(Swap(s, |draws|, draws[0]), draws[1..]);
    }
  }

  /** Positions above the first drawn one are left alone. */
  lemma {:induction false} ShuffleFixesAbove(s: seq<int>, draws: seq<nat>, k: nat)
    requires Drawn(draws) && |draws| < k < |s|
    ensures Shuffle(s, draws)[k] == s[k]
    decreases |draws|
  {
    if draws != [] {
      DrawnTail(draws);
      ShuffleFixesAbove(Swap(s, |draws|, draws[0]), draws[1..], k);
    }
  }

  /** Different draws give different orders ... */
  lemma {:induction false} ShuffleInjective(s: seq<int>, d: seq<nat>, e: seq<nat>)
    requires Drawn(d) && Drawn(e) && |d| == |e| < |s| && Distinct(s)
    requires Shuffle(s, d) == Shuffle(s, e)
    ensures d == e
    decreases |d|
  {
    if d != [] {
      DrawnTail(d);
      DrawnTail(e);
      var n := |d|;
      ShuffleFixesAbove(Swap(s, n, d[0]), d[1..], n);
      ShuffleFixesAbove(Swap(s, n, e[0]), e[1..], n);
      assert s[d[0]] == s[e[0]];
      assert d[0] == e[0];
      ShuffleInjective(Swap(s, n, d[0]), d[1..], e[1..]);
      assert d == [d[0]] + d[1..] && e == [e[0]] + e[1..];
    }
  }

  lemma WithoutLast(s: seq<int>, n: nat)
    requires n < |s|
    ensures s[n] in s[..n + 1] && multiset(s[..n]) == multiset(s[..n + 1]) - multiset{s[n]}
  {
    assert s[..n + 1] == s[..n] + [s[n]];
  }

  lemma SwapPrefix(s: seq<int>, n: nat, j: nat)
    requires j <= n < |s|
    ensures multiset(Swap(s, n, j)[..n + 1]) == multiset(s[..n + 1]) && Swap(s, n, j)[n + 1..] == s[n + 1..]
  {
    assert Swap(s, n, j)[..n + 1] == s[..n + 1][n := s[j]][j := s[n]];
  }

  /** t is s with its positions up to n in some order. */
  ghost predicate Reordered(s: seq<int>, t: seq<int>, n: nat) {
    n < |s| == |t| && s[n + 1..] == t[n + 1..] && multiset(s[..n + 1]) == multiset(t[..n + 1])
  }

  lemma LastFixed(s: seq<int>, t: seq<int>, n: nat)
    requires Reordered(s, t, n) && n > 0 && s[n] == t[n]
    ensures Reordered(s, t, n - 1)
  {
    WithoutLast(s, n);
    WithoutLast(t, n);
    assert s[n..] == [s[n]] + s[n + 1..];
    assert t[n..] == [t[n]] + t[n + 1..];
  }

  lemma OneLeft(s: seq<int>, t: seq<int>)
    requires Reordered(s, t, 0)
    ensures s == t
  {
    assert s[..1] == [s[0]] && t[..1] == [t[0]];
    assert multiset(s[..1])[t[0]] == 1;
    assert s == [s[0]] + s[1..] && t == [t[0]] + t[1..];
  }

  /** The draw that puts the right value at position n. */
  lemma PartnerOf(s: seq<int>, t: seq<int>, n: nat) returns (j: nat)
    requires Reordered(s, t, n)
    ensures j <= n && s[j] == t[n]
  {
    WithoutLast(t, n);
    assert t[n] in multiset(s[..n + 1]);
    assert t[n] in s[..n + 1];
    j :| j <= n && s[..n + 1][j] == t[n];
  }

  lemma DrawFirst(s: seq<int>, j: nat, rest: seq<nat>)
    requires Drawn(rest) && j <= |rest| + 1 < |s|
    ensures Drawn([j] + rest) && Shuffle(s, [j] + rest) == Shuffle(Swap(s, |rest| + 1, j), rest)
  {
    assert ([j] + rest)[1..] == rest;
  }

  /** ... and every order of the first n + 1 positions comes from some draws: with uniform draws no order of
      the ports is favoured. */
  lemma {:induction false} ShuffleReaches(s: seq<int>, t: seq<int>, n: nat) returns (draws: seq<nat>)
    requires Reordered(s, t, n)
    ensures |draws| == n && Drawn(draws) && Shuffle(s, draws) == t
    decreases n
  {
    if n == 0 {
      OneLeft(s, t);
      draws := [];
    } else {
      var j := PartnerOf(s, t, n);
      SwapPrefix(s, n, j);
      LastFixed(Swap(s, n, j), t, n);
      var rest := ShuffleReaches(Swap(s, n, j), t, n - 1);
      DrawFirst(s, j, rest);
      draws := [j] + rest;
    }
  }

  function AllPorts(): (r: seq<int>)
    ensures |r| == PORTS && Distinct(r)
  {
    seq(PORTS, i => i + 1)
  }

  /** generateShuffledPorts, with the random numbers it draws. */
  method GenerateShuffledPorts(draws: seq<nat>) returns (ports: array<int>)
    requires Drawn(draws) && |draws| == PORTS - 1
    ensures fresh(ports) && ports.Length == PORTS
    ensures ports[..] == Shuffle(AllPorts(), draws)
  {
    ports := new int[PORTS];
    for i := 0 to PORTS
      invariant forall k :: 0 <= k < i ==> ports[k] == k + 1
    {
      ports[i] := i + 1;
    }
    assert ports[..] == AllPorts();
    var i := PORTS - 1;
    while i > 0
      invariant 0 <= i < PORTS
      invariant Drawn(draws[PORTS - 1 - i..])
      invariant Shuffle(ports[..], draws[PORTS - 1 - i..]) == Shuffle(AllPorts(), draws)
    {
      ghost var before, left := ports[..], draws[PORTS - 1 - i..];
      DrawnTail(left);
      var j := draws[PORTS - 1 - i];
      assert left[0] == j && left[1..] == draws[PORTS - i..];
      ports[i], ports[j] := ports[j], ports[i];
      assert ports[..] == Swap(before, i, j);
      i := i - 1;
    }
  }

  /** Whatever is drawn, each port from 1 to 65535 is in the list exactly once. */
  lemma EachPortOnce(draws: seq<nat>)
    requires Drawn(draws) && |draws| == PORTS - 1
    ensures var ports := Shuffle(AllPorts(), draws);
            |ports| == 65535 && Distinct(ports) && forall p :: p in ports <==> 1 <= p <= 65535
  {
    var all := AllPorts();
    ShufflePermutes(all, draws);
    var ports := Shuffle(all, draws);
    forall p
      ensures p in ports <==> 1 <= p <= PORTS
    {
      assert p in ports <==> p in multiset(ports);
      assert p in all <==> p in multiset(all);
      if 1 <= p <= PORTS {
        assert all[p - 1] == p;
      }
    }
  }

  /** Each order of the ports comes from exactly one sequence of draws. */
  lemma EveryOrderOnce(order: seq<int>) returns (draws: seq<nat>)
    requires multiset(order) == multiset(AllPorts())
    ensures Drawn(draws) && |draws| == PORTS - 1 && Shuffle(AllPorts(), draws) == order
    ensures forall other :: Drawn(other) && |other| == PORTS - 1 && Shuffle(AllPorts(), other) == order ==>
              other == draws
  {
    var all := AllPorts();
    assert |multiset(order)| == |multiset(all)|;
    assert all[..PORTS] == all && order[..PORTS] == order;
    draws := ShuffleReaches(all, order, PORTS - 1);
    forall other | Drawn(other) && |other| == PORTS - 1 && Shuffle(all, other) == order
      ensures other == draws
    {
      ShuffleInjective(all, other, draws);
    }
  }

  // ----- The probe schedule -----

  const MAX_ROUNDS: nat := 5
  const BIRTHDAY_MIN: nat := 600
  const BIRTHDAY_MAX: nat := 800

  function Sum(sizes: seq<nat>): nat { if sizes == [] then 0 else Sum(sizes[..|sizes| - 1]) + sizes[|sizes| - 1] }

  /** punchConeToSym's rounds. `clock` says whether the deadline is still ahead at each look at the time, and
      the peer's packet is there for every poll made once `due` probes are out.
      The probes go to the ports in list order without coming back to the first. The peer's packet is noticed
      exactly if it is there at the end, and at most 100 probes late. */
  method PunchConeToSym(ports: array<int>, sizes: seq<nat>, due: Option<nat>, clock: nat -> bool)
    returns (probed: seq<int>, found: bool)
    requires ports.Length == PORTS
    requires |sizes| == MAX_ROUNDS && forall k :: 0 <= k < |sizes| ==> BIRTHDAY_MIN <= sizes[k] < BIRTHDAY_MAX
    ensures |probed| <= MAX_ROUNDS * (BIRTHDAY_MAX - 1) && probed == ports[..|probed|]
    ensures found <==> clock(0) && due.Some? && due.value <= |probed|
    ensures found ==> |probed| <= due.value + 100
    ensures (forall k :: clock(k)) && !found ==> |probed| == Sum(sizes)
  {
    probed, found := [], false;
    var portIdx, now, round := 0, 0, 0;
    while round < MAX_ROUNDS
      invariant round <= MAX_ROUNDS && |probed| <= round * (BIRTHDAY_MAX - 1)
      invariant portIdx == |probed| && probed == ports[..|probed|]
      invariant due.Some? ==> |probed| < due.value || round == 0
      invariant round == 0 ==> now == 0
      invariant round > 0 ==> clock(0)
      invariant (forall k :: clock(k)) ==> |probed| == Sum(sizes[..round])
    {
      if !clock(now) {
        return;
      }
      now := now + 1;
      assert clock(0);
      ghost var start := |probed|;
      var i := 0;
      while i < sizes[round]
        invariant i <= sizes[round] && now > 0 && |probed| == start + i
        invariant portIdx == |probed| && probed == ports[..|probed|]
        invariant due.Some? ==> |probed| - i % 100 < due.value || |probed| < 100
      {
        if !clock(now) {
          break;
        }
        now := now + 1;
        if portIdx >= ports.Length {
          portIdx := 0;
        }
        probed := probed + [ports[portIdx]];
        portIdx := portIdx + 1;
        if i % 100 == 99 && due.Some? && due.value <= |probed| {
          return probed, true;
        }
        i := i + 1;
      }
      if due.Some? && due.value <= |probed| {
        return probed, true;
      }
      assert sizes[..round + 1][..round] == sizes[..round];
      round := round + 1;
    }
    assert sizes[..round] == sizes;
  }

  /** A whole punch, whatever the random numbers, the clock and the peer do: at most 3995 probes, each to a
      port of its own. */
  method ConeToSymProbes(draws: seq<nat>, sizes: seq<nat>, due: Option<nat>, clock: nat -> bool)
    returns (probed: seq<int>, found: bool)
    requires Drawn(draws) && |draws| == PORTS - 1
    requires |sizes| == MAX_ROUNDS && forall k :: 0 <= k < |sizes| ==> BIRTHDAY_MIN <= sizes[k] < BIRTHDAY_MAX
    ensures |probed| <= 3995 && Distinct(probed)
    ensures forall k :: 0 <= k < |probed| ==> 1 <= probed[k] <= 65535
    ensures !found && (forall k :: clock(k)) ==> |probed| >= 3000
  {
    var ports := GenerateShuffledPorts(draws);
    EachPortOnce(draws);
    probed, found := PunchConeToSym(ports, sizes, due, clock);
    forall k | 0 <= k < |probed|
      ensures 1 <= probed[k] <= PORTS && probed[k] == ports[..][k]
    {
      assert probed[k] in ports[..];
    }
    SumAtLeast(sizes, BIRTHDAY_MIN);
  }

  lemma {:induction false} SumAtLeast(sizes: seq<nat>, least: nat)
    requires forall k :: 0 <= k < |sizes| ==> least <= sizes[k]
    ensures Sum(sizes) >= least * |sizes|
  {
    if sizes != [] {
      SumAtLeast(sizes[..|sizes| - 1], least);
    }
  }

  // ----- The punch packet -----

  const MAGIC: seq<byte> := [0xF2, 0x50, 0x48, 0x50]
  const PACKET_SIZE: nat := 64

  /** Any longer packet that begins like a punch packet is one. */
  ghost predicate Announces(data: seq<byte>, tid: nat) {
    tid < 0x1_0000_0000 && [0xF2, 0x50, 0x48, 0x50] + Be32Bytes(tid) <= data
  }

  method MakePunchPacket(tid: nat) returns (pkt: array<byte>)
    requires tid < 0x1_0000_0000
    ensures fresh(pkt) && pkt.Length == 64
    ensures Announces(pkt[..], tid) && forall k :: 8 <= k < 64 ==> pkt[k] == 0
    ensures ParsePunchPacket(pkt[..]) == Some(tid)
  {
    pkt := new byte[PACKET_SIZE](_ => 0);
    pkt[0], pkt[1], pkt[2], pkt[3] := MAGIC[0], MAGIC[1], MAGIC[2], MAGIC[3];
    var id := Be32Bytes(tid);
    pkt[4], pkt[5], pkt[6], pkt[7] := id[0], id[1], id[2], id[3];
    assert pkt[..8] == MAGIC + Be32Bytes(tid);
    assert pkt[..][..8] == pkt[..8];
    ParseIff(pkt[..], tid);
  }

  function ParsePunchPacket(data: seq<byte>): Option<nat> {
    if |data| < 8 then None
    else if data[0] != MAGIC[0] || data[1] != MAGIC[1] || data[2] != MAGIC[2] || data[3] != MAGIC[3] then None
    else Some(Be32(data[4..8]))
  }

  /** The parser accepts exactly the packets that announce a transaction id, and reads that id. */
  lemma ParseIff(data: seq<byte>, tid: nat)
    ensures ParsePunchPacket(data) == Some(tid) <==> Announces(data, tid)
  {
    if |data| >= 8 {
      var id := data[4..8];
      assert data[..8] == data[..4] + id;
      if ParsePunchPacket(data) == Some(tid) {
        Be32Injective(id, Be32Bytes(tid));
        assert data[..4] == MAGIC;
      }
      if Announces(data, tid) {
        var head := MAGIC + Be32Bytes(tid);
        assert data[..8] == head;
        assert id == head[4..8] == Be32Bytes(tid);
        assert data[..4] == head[..4] == MAGIC;
        assert forall k :: 0 <= k < 4 ==> data[k] == data[..4][k];
      }
    }
  }
}
