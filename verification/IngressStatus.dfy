/** Keeping the load-balancer status of every ingress equal to the controller's addresses. */
module IngressStatus {
  import opened Sorting
  import opened Strings

  /** One address of a status; the ports play no part in any comparison. */
  datatype Address = Address(hostname: string, ip: string, ports: seq<nat>)

  type Pair = (string, string)

  function PairOf(a: Address): Pair { (a.hostname, a.ip) }

  function Pairs(s: seq<Address>): seq<Pair> {
    Map(PairOf, s)
  }

  predicate PairLess(x: Pair, y: Pair) {
    if Before(x.0, y.0) then true
    else if Before(y.0, x.0) then false
    else Before(x.1, y.1)
  }

  predicate AddressLess(x: Address, y: Address) {
    PairLess(PairOf(x), PairOf(y))
  }

  lemma PairsTotal()
    ensures StrictTotalOrder(PairLess)
  {
    forall x: Pair, y: Pair
      ensures (PairLess(x, y) ==> !PairLess(y, x)) && (!PairLess(x, y) && !PairLess(y, x) ==> x == y)
    {
      BeforeAsymmetric(x.0, y.0);
      BeforeAsymmetric(x.1, y.1);
    }
    forall x: Pair, y: Pair, z: Pair | PairLess(x, z) ensures PairLess(x, y) || PairLess(y, z) {
      BeforeAsymmetric(x.0, y.0);
      BeforeAsymmetric(y.0, z.0);
      BeforeAsymmetric(x.0, z.0);
      if Before(x.0, z.0) { BeforeSplits(x.0, y.0, z.0); } else { BeforeSplits(x.1, y.1, z.1); }
    }
  }

  // ---------- Sorting sees only the pairs ----------

  lemma {:induction false} InsertPairs(s: seq<Address>, x: Address)
    ensures Pairs(Insert(AddressLess, s, x)) == Insert(PairLess, Pairs(s), PairOf(x))
  {
    if s == [] {
      MapSnoc(PairOf, s, x);
    } else {
      var front, last := s[..|s| - 1], s[|s| - 1];
      assert Pairs(s)[..|Pairs(s)| - 1] == Pairs(front);
      if AddressLess(x, last) {
        InsertPairs(front, x);
        MapSnoc(PairOf, Insert(AddressLess, front, x), last);
      } else {
        MapSnoc(PairOf, s, x);
      }
    }
  }

  lemma {:induction false} SortPairs(s: seq<Address>)
    ensures Pairs(StableSort(AddressLess, s)) == StableSort(PairLess, Pairs(s))
  {
    if s != [] {
      var front, x := s[..|s| - 1], s[|s| - 1];
      SortPairs(front);
      InsertPairs(StableSort(AddressLess, front), x);
      assert Pairs(s)[..|Pairs(s)| - 1] == Pairs(front);
    }
  }

  /** Sorted statuses compare equal exactly when the address pairs agree as multisets. */
  lemma {:induction false} EqualExactly(s: seq<Address>, t: seq<Address>)
    ensures Pairs(StableSort(AddressLess, s)) == Pairs(StableSort(AddressLess, t)) <==>
            multiset(Pairs(s)) == multiset(Pairs(t))
  {
    PairsTotal();
    SortPairs(s);
    SortPairs(t);
    SortPermutes(PairLess, Pairs(s));
    SortPermutes(PairLess, Pairs(t));
    if multiset(Pairs(s)) == multiset(Pairs(t)) {
      SortForgetsOrder(PairLess, Pairs(s), Pairs(t));
    }
  }

  /** After an update wrote the controller's addresses, the same addresses in any order match. */
  lemma UpdatedStatusMatches(controller: seq<Address>, later: seq<Address>)
    requires multiset(Pairs(controller)) == multiset(Pairs(later))
    ensures multiset(Pairs(StableSort(AddressLess, controller))) == multiset(Pairs(later))
  {
    SortPairs(controller);
    SortPermutes(PairLess, Pairs(controller));
  }

  /** Pairs agree exactly where hostnames and IPs do. */
  lemma PairsTell(s: seq<Address>, t: seq<Address>)
    ensures Pairs(s) == Pairs(t) <==>
            |s| == |t| && forall i :: 0 <= i < |s| ==> s[i].hostname == t[i].hostname && s[i].ip == t[i].ip
  {
    MapIndex(PairOf, s);
    MapIndex(PairOf, t);
    if Pairs(s) == Pairs(t) {
      forall i | 0 <= i < |s| ensures s[i].hostname == t[i].hostname && s[i].ip == t[i].ip {
        assert PairOf(s[i]) == Pairs(s)[i] == Pairs(t)[i] == PairOf(t[i]);
      }
    }
  }

  /** A status is put in the order of its hostnames, and of its IPs where these agree. */
  lemma ArrangedByName(s: seq<Address>, i: nat, j: nat)
    requires i < j < |Arrange(s)|
    ensures var x, y := Arrange(s)[i], Arrange(s)[j];
            Before(x.hostname, y.hostname) || (x.hostname == y.hostname && (x.ip == y.ip || Before(x.ip, y.ip)))
  {
    AddressWeak();
    SortSorts(AddressLess, s);
    var x, y := Arrange(s)[i], Arrange(s)[j];
    assert !AddressLess(y, x);
    BeforeAsymmetric(x.hostname, y.hostname);
    BeforeAsymmetric(x.ip, y.ip);
  }

  lemma AddressWeak()
    ensures StrictWeakOrder(AddressLess)
  {
    PairsTotal();
    forall x: Address, y: Address ensures AddressLess(x, y) ==> !AddressLess(y, x) {
      assert PairLess(PairOf(x), PairOf(y)) ==> !PairLess(PairOf(y), PairOf(x));
    }
    forall x: Address, y: Address, z: Address | AddressLess(x, z) ensures AddressLess(x, y) || AddressLess(y, z) {
      assert PairLess(PairOf(x), PairOf(z));
    }
  }

  // ---------- The methods ----------

  method IngressSliceEqual(lhs: seq<Address>, rhs: seq<Address>) returns (equal: bool)
    ensures equal <==> Pairs(lhs) == Pairs(rhs)
  {
    MapIndex(PairOf, lhs);
    MapIndex(PairOf, rhs);
    if |lhs| != |rhs| { return false; }
    for i := 0 to |lhs|
      invariant forall j :: 0 <= j < i ==> PairOf(lhs[j]) == PairOf(rhs[j])
    {
      if lhs[i].ip != rhs[i].ip {
        assert Pairs(lhs)[i] != Pairs(rhs)[i];
        return false;
      }
      if lhs[i].hostname != rhs[i].hostname {
        assert Pairs(lhs)[i] != Pairs(rhs)[i];
        return false;
      }
    }
    assert forall j :: 0 <= j < |lhs| ==> Pairs(lhs)[j] == PairOf(lhs[j]) == PairOf(rhs[j]) == Pairs(rhs)[j];
    return true;
  }

  /** A slice sorted in place. */
  method SortSlice(s: seq<Address>, less: (Address, Address) -> bool) returns (sorted: seq<Address>)
    ensures sorted == StableSort(less, s)
  {
    var a := new Address[|s|](i requires 0 <= i < |s| => s[i]);
    assert a[..] == s;
    SliceStable(a, less);
    sorted := a[..];
  }

  function ToAddress(isIP: string -> bool, endpoint: string): Address {
    if isIP(endpoint) then Address("", endpoint, []) else Address(endpoint, "", [])
  }

  function ToAddresses(isIP: string -> bool, endpoints: seq<string>): seq<Address> {
    Map(e => ToAddress(isIP, e), endpoints)
  }

  predicate IPLess(x: Address, y: Address) { Before(x.ip, y.ip) }

  /** Converts addresses of either kind, and sorts them by IP alone. */
  method SliceToLoadBalancerIngress(isIP: string -> bool, endpoints: seq<string>) returns (lbi: seq<Address>)
    ensures lbi == StableSort(IPLess, ToAddresses(isIP, endpoints))
  {
    lbi := [];
    for i := 0 to |endpoints|
      invariant lbi == ToAddresses(isIP, endpoints[..i])
    {
      assert endpoints[..i + 1][..i] == endpoints[..i];
      if !isIP(endpoints[i]) {
        lbi := lbi + [Address(endpoints[i], "", [])];
      } else {
        lbi := lbi + [Address("", endpoints[i], [])];
      }
    }
    assert endpoints[..|endpoints|] == endpoints;
    lbi := SortSlice(lbi, IPLess);
  }

  /** An endpoint goes into the field of its kind, and no address is lost or made up. */
  lemma {:induction false} AddressesOf(isIP: string -> bool, endpoints: seq<string>, i: nat)
    requires i < |endpoints|
    ensures var a := ToAddresses(isIP, endpoints);
            && |a| == |endpoints| && a[i].ports == []
            && (isIP(endpoints[i]) ==> a[i].ip == endpoints[i] && a[i].hostname == "")
            && (!isIP(endpoints[i]) ==> a[i].hostname == endpoints[i] && a[i].ip == "")
    ensures multiset(StableSort(IPLess, ToAddresses(isIP, endpoints))) == multiset(ToAddresses(isIP, endpoints))
  {
    MapIndex(e => ToAddress(isIP, e), endpoints);
    SortPermutes(IPLess, ToAddresses(isIP, endpoints));
  }

  /** The controller's addresses come in the order of their IPs, and otherwise as they were reported. */
  lemma {:induction false} AddressesByIP(s: seq<Address>, i: nat, j: nat)
    requires i < j < |StableSort(IPLess, s)|
    ensures var x, y := StableSort(IPLess, s)[i], StableSort(IPLess, s)[j]; x.ip == y.ip || Before(x.ip, y.ip)
  {
    IPWeak();
    SortSorts(IPLess, s);
    var x, y := StableSort(IPLess, s)[i], StableSort(IPLess, s)[j];
    assert !IPLess(y, x);
    BeforeAsymmetric(x.ip, y.ip);
  }

  lemma IPWeak()
    ensures StrictWeakOrder(IPLess)
  {
    forall x: Address, y: Address ensures IPLess(x, y) ==> !IPLess(y, x) {
      BeforeAsymmetric(x.ip, y.ip);
    }
    forall x: Address, y: Address, z: Address | IPLess(x, z) ensures IPLess(x, y) || IPLess(y, z) {
      BeforeSplits(x.ip, y.ip, z.ip);
    }
  }

  ghost predicate Matches(status: seq<Address>, controller: seq<Address>) {
    multiset(Pairs(status)) == multiset(Pairs(controller))
  }

  function Arrange(status: seq<Address>): seq<Address> {
    StableSort(AddressLess, status)
  }

  ghost function Differs(controller: seq<Address>): seq<Address> -> bool {
    status => !Matches(status, controller)
  }

  /** The ingresses of the store, as far as their status goes. */
  class Statuses {
    var statuses: seq<seq<Address>>

    /** Sorts the i-th status in place and compares it with the sorted controller addresses. */
    method SortAndCompare(i: nat, sorted: seq<Address>, ghost arranged: seq<Address>) returns (equal: bool)
      requires i < |statuses| && arranged == Arrange(statuses[i])
      modifies this
      ensures statuses == old(statuses)[i := arranged]
      ensures equal <==> Pairs(arranged) == Pairs(sorted)
    {
      var curIPs := SortSlice(statuses[i], AddressLess);
      statuses := statuses[i := curIPs];
      equal := IngressSliceEqual(curIPs, sorted);
    }

    /** Queues an update for exactly the ingresses whose address pairs differ from the controller's;
        `queued[i]` tells whether the i-th was. */
    method UpdateIngStatuses(controller: seq<Address>) returns (queued: seq<bool>)
      modifies this
      ensures statuses == Map(Arrange, old(statuses))
      ensures queued == Map(Differs(controller), old(statuses))
    {
      var sorted := SortSlice(controller, AddressLess);
      ghost var was := statuses;
      MapIndex(Arrange, was);
      MapIndex(Differs(controller), was);
      queued := CompareAll(sorted, Map(Arrange, was));
      forall i | 0 <= i < |was| ensures queued[i] == Differs(controller)(was[i]) {
        EqualExactly(was[i], controller);
      }
      assert queued == Map(Differs(controller), was);
    }

    /** The loop over the ingresses. */
    method CompareAll(sorted: seq<Address>, ghost arranged: seq<seq<Address>>) returns (queued: seq<bool>)
      requires |arranged| == |statuses| && forall j :: 0 <= j < |statuses| ==> arranged[j] == Arrange(statuses[j])
      modifies this
      ensures |statuses| == |queued| == |arranged|
      ensures forall j :: 0 <= j < |statuses| ==> statuses[j] == arranged[j]
      ensures forall j :: 0 <= j < |statuses| ==> (queued[j] <==> Pairs(arranged[j]) != Pairs(sorted))
    {
      ghost var was := statuses;
      queued := [];
      for i := 0 to |statuses|
        invariant |statuses| == |was| && |queued| == i
        invariant forall j :: 0 <= j < i ==> statuses[j] == arranged[j]
        invariant forall j :: i <= j < |was| ==> statuses[j] == was[j]
        invariant forall j :: 0 <= j < i ==> (queued[j] <==> Pairs(arranged[j]) != Pairs(sorted))
      {
        var equal := SortAndCompare(i, sorted, arranged[i]);
        queued := queued + [!equal];
      }
    }
  }

  // ---------- Repeating a sync ----------

  /** A sync whose update succeeded leaves nothing to do for the next one, whatever the order in
      which the same endpoints are reported then. */
  lemma {:induction false} ResyncQueuesNothing(isIP: string -> bool, endpoints: seq<string>, later: seq<string>)
    requires multiset(endpoints) == multiset(later)
    ensures var written := StableSort(AddressLess, StableSort(IPLess, ToAddresses(isIP, endpoints)));
            Matches(written, StableSort(IPLess, ToAddresses(isIP, later)))
  {
    var first := StableSort(IPLess, ToAddresses(isIP, endpoints));
    var second := StableSort(IPLess, ToAddresses(isIP, later));
    MapPermutes(e => ToAddress(isIP, e), endpoints, later);
    SortPermutes(IPLess, ToAddresses(isIP, endpoints));
    SortPermutes(IPLess, ToAddresses(isIP, later));
    MapPermutes(PairOf, first, second);
    UpdatedStatusMatches(first, second);
  }
}
