// The manager of 127.0.0.x addresses: a cyclic scan from a remembered octet.
module LocalIPs {
  import opened Text

  const BASE := "127.0.0"
  const TRIES := 254

  function IP(octet: int): string {
    BASE + "." + Dec(octet)
  }

  /** The octet of try i when the counter starts at `start`. */
  function Tried(start: int, i: nat): int
    requires 2 <= start <= 256 && i < TRIES
  {
    var p := start - 2 + i;
    2 + if p >= TRIES then p - TRIES else p
  }

  /** The tries begin at the counter and go up by one, from 255 on to 2. */
  lemma TriesGoRound(start: int, i: nat)
    requires 2 <= start <= 256 && i < TRIES
    ensures i == 0 ==> Tried(start, i) == if start == 256 then 2 else start
    ensures i > 0 ==> Tried(start, i) == if Tried(start, i - 1) == 255 then 2 else Tried(start, i - 1) + 1
  {
  }

  /** The 254 tries visit each of 2..255 exactly once, whatever the start. */
  lemma TriesVisitEachOnce(start: int, octet: int) returns (i: nat)
    requires 2 <= start <= 256 && 2 <= octet <= 255
    ensures i < TRIES && Tried(start, i) == octet
    ensures forall j: nat :: j < TRIES && Tried(start, j) == octet ==> j == i
  {
    i := if octet >= start then octet - start
         else if start == 256 then octet - 2
         else octet - start + TRIES;
  }

  datatype State = State(held: set<string>, octet: int)

  predicate Valid(s: State) {
    2 <= s.octet <= 256
  }

  /** Neither handed out nor taken by somebody else. */
  predicate Free(held: set<string>, unbindable: set<int>, octet: int) {
    IP(octet) !in held && octet !in unbindable
  }

  /** The first of the tries from i on that finds a free octet. */
  function Search(held: set<string>, unbindable: set<int>, start: int, i: nat, tries: nat): (r: Option<nat>)
    requires 2 <= start <= 256 && i <= tries <= TRIES
    ensures r.None? ==>
              forall j :: i <= j < tries ==> !Free(held, unbindable, Tried(start, j))
    ensures r.Some? ==>
              && i <= r.value < tries && Free(held, unbindable, Tried(start, r.value))
              && forall j :: i <= j < r.value ==> !Free(held, unbindable, Tried(start, j))
    decreases tries - i
  {
    if i == tries then None
    else if Free(held, unbindable, Tried(start, i)) then Some(i)
    else Search(held, unbindable, start, i + 1, tries)
  }

  datatype Op = Get(unbindable: set<int>) | Release(ip: string)

  /** What Get hands out. */
  function Result(s: State, unbindable: set<int>): Option<string>
    requires Valid(s)
  {
    var r := Search(s.held, unbindable, s.octet, 0, TRIES);
    if r.None? then None else Some(IP(Tried(s.octet, r.value)))
  }

  function Next(s: State, op: Op): (s': State)
    requires Valid(s)
    ensures Valid(s')
  {
    match op
    case Release(ip) => s.(held := s.held - {ip})
    case Get(unbindable) =>
      var r := Search(s.held, unbindable, s.octet, 0, TRIES);
      if r.None? then s.(octet := Tried(s.octet, TRIES - 1) + 1)
      else State(s.held + {IP(Tried(s.octet, r.value))}, Tried(s.octet, r.value) + 1)
  }

  /** An error means that no octet of 2..255 is free, and conversely; the scan then
      has come round to where it began. */
  lemma ErrorIffNoneFree(s: State, unbindable: set<int>)
    requires Valid(s)
    ensures Result(s, unbindable).None? ==>
              var s' := Next(s, Get(unbindable)); s'.held == s.held && Tried(s'.octet, 0) == Tried(s.octet, 0)
    ensures Result(s, unbindable).None? <==>
            forall o :: 2 <= o <= 255 ==> !Free(s.held, unbindable, o)
  {
    forall o | 2 <= o <= 255 && Result(s, unbindable).None?
      ensures !Free(s.held, unbindable, o)
    {
      var i := TriesVisitEachOnce(s.octet, o);
    }
  }

  /** What is handed out is free, and nothing free was passed over on the way:
      it is the first free octet in cyclic order. */
  lemma ResultIsFirstFree(s: State, unbindable: set<int>) returns (i: nat)
    requires Valid(s) && Result(s, unbindable).Some?
    ensures i < TRIES && Result(s, unbindable) == Some(IP(Tried(s.octet, i)))
    ensures Free(s.held, unbindable, Tried(s.octet, i))
    ensures forall j :: 0 <= j < i ==> !Free(s.held, unbindable, Tried(s.octet, j))
    ensures Next(s, Get(unbindable)) == State(s.held + {IP(Tried(s.octet, i))}, Tried(s.octet, i) + 1)
  {
    i := Search(s.held, unbindable, s.octet, 0, TRIES).value;
  }

  /** The state after the first n operations of a run. */
  function After(ops: seq<Op>, n: nat): (s: State)
    requires n <= |ops|
    ensures Valid(s)
  {
    if n == 0 then State({}, 2) else Next(After(ops, n - 1), ops[n - 1])
  }

  /** Operation i of the run hands out `ip`. */
  predicate Issues(ops: seq<Op>, i: nat, ip: string) {
    i < |ops| && ops[i].Get? && Result(After(ops, i), ops[i].unbindable) == Some(ip)
  }

  lemma {:induction false} HeldUntilReleased(ops: seq<Op>, i: nat, n: nat, ip: string)
    requires Issues(ops, i, ip) && i < n <= |ops|
    requires forall k :: i < k < n ==> ops[k] != Release(ip)
    ensures ip in After(ops, n).held
  {
    if n > i + 1 {
      HeldUntilReleased(ops, i, n - 1, ip);
    }
  }

  /** Operation i handed the address out, and none before n has released it since. */
  predicate StillOut(ops: seq<Op>, i: nat, n: nat, ip: string)
    requires n <= |ops|
  {
    i < n && Issues(ops, i, ip) && forall k :: i < k < n ==> ops[k] != Release(ip)
  }

  lemma {:induction false} HeldWasIssued(ops: seq<Op>, n: nat, ip: string) returns (i: nat)
    requires n <= |ops| && ip in After(ops, n).held
    ensures StillOut(ops, i, n, ip)
  {
    if n == 0 {
      assert false;
    }
    i := n - 1;
    if !Issues(ops, i, ip) {
      i := HeldWasIssued(ops, n - 1, ip);
    }
  }

  /** Over every run an address is held exactly from its being handed out to its release. */
  lemma HeldIff(ops: seq<Op>, n: nat, ip: string)
    requires n <= |ops|
    ensures ip in After(ops, n).held <==> exists i: nat :: StillOut(ops, i, n, ip)
  {
    if ip in After(ops, n).held {
      var i := HeldWasIssued(ops, n, ip);
    }
    if i: nat :| StillOut(ops, i, n, ip) {
      HeldUntilReleased(ops, i, n, ip);
    }
  }

  /** Over every run an address is never handed out again while it is held. */
  lemma ReissuedOnlyAfterRelease(ops: seq<Op>, i: nat, j: nat, ip: string)
    requires i < j && Issues(ops, i, ip) && Issues(ops, j, ip)
    ensures exists k :: i < k < j && ops[k] == Release(ip)
  {
    if forall k :: i < k < j ==> ops[k] != Release(ip) {
      HeldUntilReleased(ops, i, j, ip);
    }
  }

  class IPManager {
    var allocatedIPs: set<string>
    var currentOctet: int

    constructor ()
      ensures View() == State({}, 2)
    {
      allocatedIPs, currentOctet := {}, 2;
    }

    function View(): State
      reads this
    {
      State(allocatedIPs, currentOctet)
    }

    /** One round of the loop: the next octet, with wrap-around, is taken if it is free. */
    method TryOctet(unbindable: set<int>) returns (r: Option<string>)
      requires Valid(View())
      modifies this
      ensures var octet := if old(currentOctet) > 255 then 2 else old(currentOctet);
              && currentOctet == octet + 1
              && (r == if Free(old(allocatedIPs), unbindable, octet) then Some(IP(octet)) else None)
              && allocatedIPs == if r.Some? then old(allocatedIPs) + {IP(octet)} else old(allocatedIPs)
    {
      if currentOctet > 255 {
        currentOctet := 2;
      }
      var candidate := IP(currentOctet);
      if candidate in allocatedIPs {
        currentOctet := currentOctet + 1;
        return None;
      }
      if currentOctet !in unbindable {
        allocatedIPs := allocatedIPs + {candidate};
        currentOctet := currentOctet + 1;
        return Some(candidate);
      }
      currentOctet := currentOctet + 1;
      return None;
    }

    /** The loop: so many tries, from the counter on. */
    method Scan(unbindable: set<int>, tries: nat) returns (r: Option<string>)
      requires Valid(View()) && 0 < tries <= TRIES
      modifies this
      ensures var start := old(currentOctet);
              var found := Search(old(allocatedIPs), unbindable, start, 0, tries);
              if found.None? then
                r == None && allocatedIPs == old(allocatedIPs) && currentOctet == Tried(start, tries - 1) + 1
              else
                var octet := Tried(start, found.value);
                r == Some(IP(octet)) && allocatedIPs == old(allocatedIPs) + {IP(octet)} && currentOctet == octet + 1
    {
      ghost var start := currentOctet;
      ghost var found := Search(allocatedIPs, unbindable, start, 0, tries);
      for i := 0 to tries
        invariant allocatedIPs == old(allocatedIPs)
        invariant 2 <= currentOctet <= 256
        invariant if i == 0 then currentOctet == start else currentOctet == Tried(start, i - 1) + 1
        invariant Search(allocatedIPs, unbindable, start, i, tries) == found
      {
        r := TryOctet(unbindable);
        if r.Some? {
          assert found == Some(i);
          return;
        }
      }
      return None;
    }

    method GetFreeLocalIP(unbindable: set<int>) returns (r: Option<string>)
      requires Valid(View())
      modifies this
      ensures View() == Next(old(View()), Get(unbindable))
      ensures r == Result(old(View()), unbindable)
    {
      r := Scan(unbindable, TRIES);
    }

    method ReleaseLocalIP(ip: string)
      requires Valid(View())
      modifies this`allocatedIPs
      ensures View() == Next(old(View()), Release(ip))
    {
      allocatedIPs := allocatedIPs - {ip};
    }
  }
}
