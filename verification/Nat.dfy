/** NAT types, their classification from STUN answers, and the choice of punch method. */
module Nat {
  import opened Bytes

  const UNKNOWN := 0
  const OPEN := 1
  const CONE := 2
  const EASY_INC := 3
  const EASY_DEC := 4
  const HARD := 5

  // ----- Classification -----

  /** What one STUN server saw. */
  datatype Answer = Answer(ip: string, port: int)

  /** The public address goes with the type; it is that of the first answer. */
  datatype Detected = Detected(kind: int, ip: string, port: int) | Inconclusive(ip: string, port: int) | NoAnswer

  function MinPort(s: seq<Answer>): int
    requires s != []
  {
    if |s| == 1 then s[0].port else var m := MinPort(s[1..]); if s[0].port < m then s[0].port else m
  }

  function MaxPort(s: seq<Answer>): int
    requires s != []
  {
    if |s| == 1 then s[0].port else var m := MaxPort(s[1..]); if s[0].port > m then s[0].port else m
  }

  /** The NAT type of two or more answers and, when it was asked for, the port of the extra socket. */
  ghost function Classify(s: seq<Answer>, extra: Option<int>): int
    requires s != []
  {
    if SamePort(s) then CONE
    else if !SameIP(s) || MaxPort(s) - MinPort(s) > 100 || extra.None? then HARD
    else if 0 < extra.value - MaxPort(s) < 100 then EASY_INC
    else if 0 < MinPort(s) - extra.value < 100 then EASY_DEC
    else HARD
  }

  ghost predicate SamePort(s: seq<Answer>) { forall a, b :: a in s && b in s ==> a.port == b.port }

  ghost predicate SameIP(s: seq<Answer>) { forall a, b :: a in s && b in s ==> a.ip == b.ip }

  /** DetectNAT from the answers on. The base port becomes the extra socket's when ports are predictable. */
  method DetectNAT(results: seq<Answer>, extra: Option<int>) returns (r: Detected)
    ensures results == [] ==> r == NoAnswer
    ensures |results| == 1 ==> r == Inconclusive(results[0].ip, results[0].port)
    ensures |results| >= 2 ==>
              && r.Detected? && r.kind == Classify(results, extra) && r.ip == results[0].ip
              && r.port == if r.kind == EASY_INC || r.kind == EASY_DEC then extra.value else results[0].port
  {
    if |results| < 2 {
      return if |results| == 1 then Inconclusive(results[0].ip, results[0].port) else NoAnswer;
    }
    var unique := UniqueIPs(results);
    var ip := results[0].ip;
    var allSamePort, basePort := true, results[0].port;
    var i := 1;
    while i < |results| && allSamePort
      invariant 1 <= i <= |results|
      invariant allSamePort ==> forall k :: 0 <= k < i ==> results[k].port == basePort
      invariant !allSamePort ==> exists k :: 0 <= k < i && results[k].port != basePort
    {
      if results[i].port != basePort {
        allSamePort := false;
      }
      i := i + 1;
    }
    if allSamePort {
      return Detected(CONE, ip, basePort);
    }
    assert !SamePort(results) by {
      var k :| 0 <= k < |results| && results[k].port != basePort;
      assert results[k] in results && results[0] in results;
    }
    if |unique| > 1 {
      assert unique[0] in unique && unique[1] in unique;
      return Detected(HARD, ip, basePort);
    }
    assert SameIP(results) by {
      forall a, b | a in results && b in results ensures a.ip == b.ip {
        assert a.ip in unique && b.ip in unique;
      }
    }
    var ports := SortedPorts(results);
    var minPort, maxPort := ports[0], ports[|ports| - 1];
    EndsAreBounds(results, ports);
    if maxPort - minPort > 100 || extra.None? {
      return Detected(HARD, ip, basePort);
    }
    var incDiff, decDiff := extra.value - maxPort, minPort - extra.value;
    if 0 < incDiff < 100 {
      return Detected(EASY_INC, ip, extra.value);
    } else if 0 < decDiff < 100 {
      return Detected(EASY_DEC, ip, extra.value);
    }
    return Detected(HARD, ip, basePort);
  }

  predicate Ascending(ports: seq<int>) { forall i, j :: 0 <= i < j < |ports| ==> ports[i] <= ports[j] }

  function Ports(s: seq<Answer>): (ports: seq<int>)
    ensures |ports| == |s| && forall i :: 0 <= i < |s| ==> ports[i] == s[i].port
  {
    seq(|s|, i requires 0 <= i < |s| => s[i].port)
  }

  /** The answers' ports, sorted. */
  method SortedPorts(results: seq<Answer>) returns (ports: seq<int>)
    ensures Ascending(ports) && multiset(ports) == multiset(Ports(results))
  {
    ports := [];
    for i := 0 to |results|
      invariant Ascending(ports) && multiset(ports) == multiset(Ports(results)[..i])
    {
      assert Ports(results)[..i + 1] == Ports(results)[..i] + [results[i].port];
      ports := Insert(ports, results[i].port);
    }
    assert Ports(results)[..|results|] == Ports(results);
  }

  method Insert(ports: seq<int>, port: int) returns (more: seq<int>)
    requires Ascending(ports)
    ensures Ascending(more) && multiset(more) == multiset(ports + [port])
  {
    var k := |ports|;
    while k > 0 && ports[k - 1] > port
      invariant 0 <= k <= |ports|
      invariant forall j :: k <= j < |ports| ==> ports[j] > port
    {
      k := k - 1;
    }
    more := ports[..k] + [port] + ports[k..];
    InsertedAscends(ports, port, k);
    InsertedIsAdded(ports[..k], port, ports[k..]);
    assert ports == ports[..k] + ports[k..];
  }

  lemma InsertedAscends(ports: seq<int>, port: int, k: nat)
    requires k <= |ports| && Ascending(ports)
    requires (k > 0 ==> ports[k - 1] <= port) && forall j :: k <= j < |ports| ==> ports[j] > port
    ensures Ascending(ports[..k] + [port] + ports[k..])
  {
    assert forall j :: 0 <= j < k ==> ports[j] <= port;
  }

  lemma InsertedIsAdded(a: seq<int>, x: int, b: seq<int>)
    ensures multiset(a + [x] + b) == multiset(a + b + [x])
  {
    assert multiset(a + [x] + b) == multiset(a) + multiset{x} + multiset(b);
    assert multiset(a + b + [x]) == multiset(a) + multiset(b) + multiset{x};
  }

  lemma EndsAreBounds(s: seq<Answer>, ports: seq<int>)
    requires s != [] && Ascending(ports) && multiset(ports) == multiset(Ports(s))
    ensures |ports| == |s| && ports[0] == MinPort(s) && ports[|ports| - 1] == MaxPort(s)
  {
    SameMembers(ports, Ports(s));
    PortBounds(s);
    forall k | 0 <= k < |ports| ensures MinPort(s) <= ports[k] <= MaxPort(s) {
      assert ports[k] in ports;
    }
    Ends(ports, MinPort(s), MaxPort(s));
  }

  lemma Ends(ports: seq<int>, lo: int, hi: int)
    requires Ascending(ports) && lo in ports && hi in ports
    requires forall k :: 0 <= k < |ports| ==> lo <= ports[k] <= hi
    ensures ports[0] == lo && ports[|ports| - 1] == hi
  {
    var i :| 0 <= i < |ports| && ports[i] == lo;
    var j :| 0 <= j < |ports| && ports[j] == hi;
  }

  lemma SameMembers(a: seq<int>, b: seq<int>)
    requires multiset(a) == multiset(b)
    ensures |a| == |b| && forall p :: p in a <==> p in b
  {
    assert |multiset(a)| == |a| && |multiset(b)| == |b|;
    assert forall p :: p in a <==> p in multiset(a);
    assert forall p :: p in b <==> p in multiset(b);
  }

  lemma PortBounds(s: seq<Answer>)
    requires s != []
    ensures MinPort(s) in Ports(s) && MaxPort(s) in Ports(s)
    ensures forall p :: p in Ports(s) ==> MinPort(s) <= p <= MaxPort(s)
  {
    Bounds(s);
    var lo :| lo in s && lo.port == MinPort(s);
    var hi :| hi in s && hi.port == MaxPort(s);
    var i :| 0 <= i < |s| && s[i] == lo;
    var j :| 0 <= j < |s| && s[j] == hi;
    assert Ports(s)[i] == MinPort(s) && Ports(s)[j] == MaxPort(s);
    forall p | p in Ports(s) ensures MinPort(s) <= p <= MaxPort(s) {
      var k :| 0 <= k < |s| && Ports(s)[k] == p;
      assert s[k] in s;
    }
  }

  /** uniqueStrings over the addresses, in order of first appearance. */
  method UniqueIPs(results: seq<Answer>) returns (out: seq<string>)
    ensures forall a :: a in results ==> a.ip in out
    ensures forall ip :: ip in out ==> exists a :: a in results && a.ip == ip
    ensures forall i, j :: 0 <= i < j < |out| ==> out[i] != out[j]
  {
    out := [];
    var seen: set<string> := {};
    for i := 0 to |results|
      invariant forall ip :: ip in seen <==> ip in out
      invariant forall k :: 0 <= k < i ==> results[k].ip in out
      invariant forall ip :: ip in out ==> exists a :: a in results && a.ip == ip
      invariant forall a, b :: 0 <= a < b < |out| ==> out[a] != out[b]
    {
      if results[i].ip !in seen {
        assert results[i] in results;
        seen := seen + {results[i].ip};
        out := out + [results[i].ip];
      }
    }
  }

  lemma {:induction false} Bounds(s: seq<Answer>)
    requires s != []
    ensures forall a :: a in s ==> MinPort(s) <= a.port <= MaxPort(s)
    ensures exists a :: a in s && a.port == MinPort(s)
    ensures exists a :: a in s && a.port == MaxPort(s)
  {
    assert s[0] in s;
    if |s| > 1 {
      Bounds(s[1..]);
      assert forall a :: a in s ==> a == s[0] || a in s[1..];
      var lo :| lo in s[1..] && lo.port == MinPort(s[1..]);
      var hi :| hi in s[1..] && hi.port == MaxPort(s[1..]);
      assert lo in s && hi in s;
    }
  }

  /** The type depends on which answers came, not on their order. */
  lemma OrderIrrelevant(s: seq<Answer>, t: seq<Answer>, extra: Option<int>)
    requires s != [] && t != [] && multiset(s) == multiset(t)
    ensures Classify(s, extra) == Classify(t, extra)
  {
    assert forall a :: a in s <==> a in multiset(s);
    assert forall a :: a in t <==> a in multiset(t);
    assert forall a :: a in s <==> a in t;
    Bounds(s);
    Bounds(t);
    assert MinPort(s) == MinPort(t) && MaxPort(s) == MaxPort(t);
  }

  /** Cone exactly when all servers saw the same port. */
  lemma ConeIff(s: seq<Answer>, extra: Option<int>)
    requires s != []
    ensures Classify(s, extra) == CONE <==> forall i :: 0 <= i < |s| ==> s[i].port == s[0].port
  {
    if Classify(s, extra) == CONE {
      assert forall i :: 0 <= i < |s| ==> s[i] in s && s[0] in s;
    }
  }

  /** The ports of one public address, not all the same, no two more than 100 apart. */
  ghost predicate Clustered(s: seq<Answer>) {
    && (exists i, j :: 0 <= i < |s| && 0 <= j < |s| && s[i].port != s[j].port)
    && (forall i, j :: 0 <= i < |s| && 0 <= j < |s| ==> s[i].ip == s[j].ip && s[i].port - s[j].port <= 100)
  }

  /** Incrementing exactly when the ports cluster and the extra port lies above all of them, by less than 100 above
      one of them; decrementing likewise below; and hard in every other case without a common port. */
  lemma EasyIff(s: seq<Answer>, extra: Option<int>)
    requires s != []
    ensures Classify(s, extra) == EASY_INC <==>
              && Clustered(s) && extra.Some?
              && (forall i :: 0 <= i < |s| ==> extra.value > s[i].port)
              && (exists i :: 0 <= i < |s| && extra.value - s[i].port < 100)
    ensures Classify(s, extra) == EASY_DEC <==>
              && Clustered(s) && extra.Some?
              && (forall i :: 0 <= i < |s| ==> extra.value < s[i].port)
              && (exists i :: 0 <= i < |s| && s[i].port - extra.value < 100)
    ensures Classify(s, extra) in {CONE, EASY_INC, EASY_DEC, HARD}
  {
    var lo, hi := BoundsAt(s);
    SameIff(s);
    assert Clustered(s) <==> !SamePort(s) && SameIP(s) && MaxPort(s) - MinPort(s) <= 100 by {
      ClusteredIff(s, lo, hi);
    }
  }

  /** Where the least and the greatest port stand. */
  lemma BoundsAt(s: seq<Answer>) returns (lo: nat, hi: nat)
    requires s != []
    ensures lo < |s| && s[lo].port == MinPort(s) && hi < |s| && s[hi].port == MaxPort(s)
    ensures forall i :: 0 <= i < |s| ==> MinPort(s) <= s[i].port <= MaxPort(s)
  {
    Bounds(s);
    var a :| a in s && a.port == MinPort(s);
    var b :| b in s && b.port == MaxPort(s);
    lo :| 0 <= lo < |s| && s[lo] == a;
    hi :| 0 <= hi < |s| && s[hi] == b;
    assert forall i :: 0 <= i < |s| ==> s[i] in s;
  }

  lemma SameIff(s: seq<Answer>)
    ensures SamePort(s) <==> forall i, j :: 0 <= i < |s| && 0 <= j < |s| ==> s[i].port == s[j].port
    ensures SameIP(s) <==> forall i, j :: 0 <= i < |s| && 0 <= j < |s| ==> s[i].ip == s[j].ip
  {
    assert forall i :: 0 <= i < |s| ==> s[i] in s;
  }

  lemma ClusteredIff(s: seq<Answer>, lo: nat, hi: nat)
    requires s != [] && lo < |s| && s[lo].port == MinPort(s) && hi < |s| && s[hi].port == MaxPort(s)
    requires forall i :: 0 <= i < |s| ==> MinPort(s) <= s[i].port <= MaxPort(s)
    ensures Clustered(s) <==> !SamePort(s) && SameIP(s) && MaxPort(s) - MinPort(s) <= 100
  {
    SameIff(s);
  }

  function MirrorAnswers(s: seq<Answer>, k: int): (t: seq<Answer>)
    ensures |t| == |s| && forall i :: 0 <= i < |s| ==> t[i] == Answer(s[i].ip, k - s[i].port)
  {
    seq(|s|, i requires 0 <= i < |s| => Answer(s[i].ip, k - s[i].port))
  }

  function MirrorType(t: int): int {
    if t == EASY_INC then EASY_DEC else if t == EASY_DEC then EASY_INC else t
  }

  lemma {:induction false} MirrorBounds(s: seq<Answer>, k: int)
    requires s != []
    ensures MinPort(MirrorAnswers(s, k)) == k - MaxPort(s) && MaxPort(MirrorAnswers(s, k)) == k - MinPort(s)
  {
    if |s| > 1 {
      MirrorBounds(s[1..], k);
      assert MirrorAnswers(s, k)[1..] == MirrorAnswers(s[1..], k);
    }
  }

  lemma MirrorSame(s: seq<Answer>, k: int)
    ensures SamePort(s) ==> SamePort(MirrorAnswers(s, k))
    ensures SameIP(s) ==> SameIP(MirrorAnswers(s, k))
  {
    var t := MirrorAnswers(s, k);
    forall a, b | a in t && b in t
      ensures (SamePort(s) ==> a.port == b.port) && (SameIP(s) ==> a.ip == b.ip)
    {
      var i :| 0 <= i < |t| && t[i] == a;
      var j :| 0 <= j < |t| && t[j] == b;
      assert s[i] in s && s[j] in s;
    }
  }

  lemma MirrorTwice(s: seq<Answer>, k: int)
    ensures MirrorAnswers(MirrorAnswers(s, k), k) == s
  {}

  /** Counting ports from the other end swaps incrementing with decrementing and changes nothing else. */
  lemma MirrorSwaps(s: seq<Answer>, extra: Option<int>, k: int)
    requires s != []
    ensures Classify(MirrorAnswers(s, k), if extra.Some? then Some(k - extra.value) else None)
            == MirrorType(Classify(s, extra))
  {
    MirrorBounds(s, k);
    MirrorTwice(s, k);
    MirrorSame(s, k);
    MirrorSame(MirrorAnswers(s, k), k);
  }

  // ----- Punch method -----

  const PUNCH_NONE := 0
  const CONE_TO_CONE := 1
  const SYM_TO_CONE := 2
  const EASY_TO_EASY := 3

  predicate IsCone(t: int) { t == CONE || t == OPEN }

  predicate IsSymmetric(t: int) { t == EASY_INC || t == EASY_DEC || t == HARD }

  predicate IsEasySymmetric(t: int) { t == EASY_INC || t == EASY_DEC }

  function DeterminePunchMethod(client: int, server: int): int {
    if client == UNKNOWN || server == UNKNOWN then PUNCH_NONE
    else if client == OPEN || server == OPEN then PUNCH_NONE
    else if IsCone(client) && IsCone(server) then CONE_TO_CONE
    else if IsSymmetric(client) && IsCone(server) then SYM_TO_CONE
    else if IsCone(client) && IsSymmetric(server) then SYM_TO_CONE
    else if IsEasySymmetric(client) && IsEasySymmetric(server) then EASY_TO_EASY
    else PUNCH_NONE
  }

  /** Whichever integers are on the wire: both ends being swapped changes nothing, and each pair of types has exactly
      this method. */
  lemma MethodIff(client: int, server: int)
    ensures var punch := DeterminePunchMethod(client, server);
            && punch == DeterminePunchMethod(server, client)
            && (punch == CONE_TO_CONE <==> client == CONE && server == CONE)
            && (punch == SYM_TO_CONE <==>
                  (client == CONE && server in {EASY_INC, EASY_DEC, HARD}) ||
                  (server == CONE && client in {EASY_INC, EASY_DEC, HARD}))
            && (punch == EASY_TO_EASY <==> client in {EASY_INC, EASY_DEC} && server in {EASY_INC, EASY_DEC})
            && punch in {PUNCH_NONE, CONE_TO_CONE, SYM_TO_CONE, EASY_TO_EASY}
  {}
}
