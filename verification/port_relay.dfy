// Published container ports and the listeners that are kept open for them on the host.
module PortRelay {

  datatype Published = Published(publicPort: nat, kind: string)

  // ---- Which ports are published ----

  function Lower(c: char): char { if 'A' <= c <= 'Z' then (c as int + 32) as char else c }

  function ToLower(s: string): string { seq(|s|, i requires 0 <= i < |s| => Lower(s[i])) }

  predicate Counts(p: Published) { p.publicPort != 0 && ToLower(p.kind) == "tcp" }

  /** TCP in any case of its letters, and a port that is published at all. */
  lemma CountsIff(p: Published)
    ensures Counts(p) <==>
              && 0 < p.publicPort && |p.kind| == 3
              && (p.kind[0] == 't' || p.kind[0] == 'T') && (p.kind[1] == 'c' || p.kind[1] == 'C') && (p.kind[2] == 'p' || p.kind[2] == 'P')
  {
    if |p.kind| == 3 {
      var l := ToLower(p.kind);
      assert l == [l[0], l[1], l[2]];
    }
  }

  ghost function PublishedSet(containers: seq<seq<Published>>): set<nat> {
    set i, j | 0 <= i < |containers| && 0 <= j < |containers[i]| && Counts(containers[i][j]) :: containers[i][j].publicPort
  }

  predicate Ascending(s: seq<nat>) { forall i, j :: 0 <= i < j < |s| ==> s[i] < s[j] }

  /** Every published TCP port once, in ascending order. */
  method PublishedPortsRaw(containers: seq<seq<Published>>) returns (ports: seq<nat>)
    ensures Ascending(ports)
    ensures forall p :: p in ports <==> p in PublishedSet(containers)
  {
    var seen: set<nat> := {};
    for i := 0 to |containers|
      invariant seen == PublishedSet(containers[..i])
    {
      ghost var before := seen;
      for j := 0 to |containers[i]|
        invariant seen == before + PublishedSet([containers[i][..j]])
      {
        OneMorePort(containers[i], j);
        if Counts(containers[i][j]) {
          seen := seen + {containers[i][j].publicPort};
        }
      }
      assert containers[i][..|containers[i]|] == containers[i];
      OneMoreContainer(containers, i);
    }
    assert containers[..|containers|] == containers;
    ports := Sorted(seen);
  }

  lemma OneMorePort(container: seq<Published>, j: nat)
    requires j < |container|
    ensures PublishedSet([container[..j + 1]])
            == PublishedSet([container[..j]]) + if Counts(container[j]) then {container[j].publicPort} else {}
  {
    var a, b := [container[..j + 1]], [container[..j]];
    forall p | p in PublishedSet(b) ensures p in PublishedSet(a) {
      var k :| 0 <= k < j && Counts(b[0][k]) && b[0][k].publicPort == p;
      assert a[0][k] == b[0][k];
    }
    if Counts(container[j]) {
      assert a[0][j] == container[j];
    }
  }

  lemma OneMoreContainer(containers: seq<seq<Published>>, i: nat)
    requires i < |containers|
    ensures PublishedSet(containers[..i + 1]) == PublishedSet(containers[..i]) + PublishedSet([containers[i]])
  {
    var a, b, c := containers[..i + 1], containers[..i], [containers[i]];
    forall p | p in PublishedSet(b) ensures p in PublishedSet(a) {
      var m, n :| 0 <= m < i && 0 <= n < |b[m]| && Counts(b[m][n]) && b[m][n].publicPort == p;
      assert a[m][n] == b[m][n];
    }
    forall p | p in PublishedSet(c) ensures p in PublishedSet(a) {
      var n :| 0 <= n < |c[0]| && Counts(c[0][n]) && c[0][n].publicPort == p;
      assert a[i][n] == c[0][n];
    }
    forall p | p in PublishedSet(a) ensures p in PublishedSet(b) + PublishedSet(c) {
      var m, n :| 0 <= m < |a| && 0 <= n < |a[m]| && Counts(a[m][n]) && a[m][n].publicPort == p;
      if m == i {
        assert c[0][n] == a[m][n];
      } else {
        assert b[m][n] == a[m][n];
      }
    }
  }

  method Sorted(s: set<nat>) returns (ports: seq<nat>)
    ensures Ascending(ports) && forall p :: p in ports <==> p in s
  {
    ports := [];
    var rest := s;
    while rest != {}
      invariant Ascending(ports) && rest <= s
      invariant forall p :: p in ports <==> p in s - rest
      invariant forall p, q :: p in ports && q in rest ==> p < q
      decreases |rest|
    {
      var least := Least(rest);
      forall i | 0 <= i < |ports| ensures ports[i] < least {
        assert ports[i] in ports;
      }
      ports := ports + [least];
      rest := rest - {least};
    }
  }

  method Least(s: set<nat>) returns (least: nat)
    requires s != {}
    ensures least in s && forall p :: p in s ==> least <= p
  {
    least :| least in s;
    var rest := s - {least};
    while rest != {}
      invariant rest <= s && least in s
      invariant forall p :: p in s && p !in rest ==> least <= p
      decreases |rest|
    {
      var p :| p in rest;
      rest := rest - {p};
      if p < least {
        least := p;
      }
    }
  }

  /** Order and contents leave no choice: the list does not depend on the order of any map. */
  lemma {:induction false} AscendingIsUnique(a: seq<nat>, b: seq<nat>)
    requires Ascending(a) && Ascending(b) && forall p :: p in a <==> p in b
    ensures a == b
    decreases |a|
  {
    assert (|a| > 0 ==> a[0] in b) && (|b| > 0 ==> b[0] in a);
    if a != [] {
      var x, y := a[|a| - 1], b[|b| - 1];
      LastIsGreatest(a, y);
      LastIsGreatest(b, x);
      var c, d := a[..|a| - 1], b[..|b| - 1];
      forall p ensures p in c <==> p in d {
        WithoutLast(a, p);
        WithoutLast(b, p);
      }
      AscendingIsUnique(c, d);
      assert a == c + [x] && b == d + [y];
    }
  }

  lemma LastIsGreatest(a: seq<nat>, p: nat)
    requires Ascending(a) && p in a
    ensures p <= a[|a| - 1]
  {
  }

  lemma WithoutLast(a: seq<nat>, p: nat)
    requires Ascending(a) && a != []
    ensures p in a[..|a| - 1] <==> p in a && p != a[|a| - 1]
  {
  }

  // ---- Listeners ----

  /** `listeners` is the relay's map. The rest is what the kernel knows: which listeners are open and
      on which port, which were closed (once for every close), the number of the next one, and the
      ports it has refused to open a listener on (once for every refusal). */
  datatype Net = Net(listeners: map<nat, nat>, open: map<nat, nat>, closes: seq<nat>, next: nat, refused: seq<nat>)

  /** Open listeners are exactly those in the map; every other one was closed, and once. */
  ghost predicate Exact(n: Net) {
    && (forall p :: p in n.listeners ==> n.listeners[p] in n.open && n.open[n.listeners[p]] == p)
    && (forall l :: l in n.open ==> l < n.next && n.open[l] in n.listeners && n.listeners[n.open[l]] == l)
    && (forall l :: 0 <= l < n.next ==> l in n.open || l in n.closes)
    && (forall i :: 0 <= i < |n.closes| ==> n.closes[i] < n.next && n.closes[i] !in n.open)
    && (forall i, j :: 0 <= i < j < |n.closes| ==> n.closes[i] != n.closes[j])
  }

  predicate Distinct(ports: seq<nat>) { forall i, j :: 0 <= i < j < |ports| ==> ports[i] != ports[j] }

  /** The refusals between two states. */
  function Refusals(a: Net, b: Net): seq<nat> { if a.refused <= b.refused then b.refused[|a.refused|..] else [] }

  /** What one round does. It listens on every wanted port unless it was refused there, asks only for
      ports it had none on, and asks once for each if the list names none twice. */
  ghost predicate Reconciled(a: Net, wanted: seq<nat>, b: Net) {
    && Exact(b) && a.next <= b.next && a.closes <= b.closes && a.refused <= b.refused
    && (forall p :: p in b.listeners ==> p in wanted)
    && (forall p :: p in wanted && p !in b.listeners ==> p in Refusals(a, b))
    && (forall p :: p in Refusals(a, b) ==> p in wanted && p !in a.listeners)
    && (Distinct(wanted) ==> Distinct(Refusals(a, b)) && forall p :: p in Refusals(a, b) ==> p !in b.listeners)
    && (forall p :: p in b.listeners ==> if p in a.listeners then b.listeners[p] == a.listeners[p] else a.next <= b.listeners[p])
  }

  class Relay {
    var n: Net

    constructor ()
      ensures n == Net(map[], map[], [], 0, []) && Exact(n)
    {
      n := Net(map[], map[], [], 0, []);
    }

    method Listen(port: nat) returns (ok: bool, listener: nat)
      modifies this
      ensures !ok ==> n == old(n).(refused := old(n).refused + [port])
      ensures ok ==> listener == old(n).next && n == old(n).(open := old(n).open[listener := port], next := listener + 1)
    {
      ok := *;
      listener := n.next;
      if ok {
        n := n.(open := n.open[listener := port], next := listener + 1);
      } else {
        n := n.(refused := n.refused + [port]);
      }
    }

    method CloseListener(listener: nat)
      modifies this
      ensures n == old(n).(open := old(n).open - {listener}, closes := old(n).closes + [listener])
    {
      n := n.(open := n.open - {listener}, closes := n.closes + [listener]);
    }

    method ListenOnWanted(ports: seq<nat>) returns (wanted: set<nat>)
      requires Exact(n)
      modifies this
      ensures Opened(old(n), ports, n)
      ensures forall p :: p in wanted <==> p in ports
    {
      hide Exact, Opened;
      ghost var a := n;
      wanted := {};
      NothingOpened(a);
      for i := 0 to |ports|
        invariant Opened(a, ports[..i], n)
        invariant forall p :: p in wanted <==> p in ports[..i]
      {
        var port := ports[i];
        assert ports[..i + 1] == ports[..i] + [port];
        wanted := wanted + {port};
        ghost var before := n;
        if port in n.listeners {
          OpensNothing(a, ports[..i], n, port);
          continue;
        }
        var ok, listener := Listen(port);
        if !ok {
          IsRefused(a, ports[..i], before, port);
          continue;
        }
        n := n.(listeners := n.listeners[port := listener]);
        OpensNew(a, ports[..i], before, port);
      }
      assert ports[..|ports|] == ports;
    }

    method CloseUnwanted(wanted: set<nat>)
      requires Exact(n)
      modifies this
      ensures Exact(n) && n.next == old(n).next && old(n).closes <= n.closes && n.refused == old(n).refused
      ensures forall p :: p in n.listeners <==> p in old(n).listeners && p in wanted
      ensures forall p :: p in n.listeners ==> n.listeners[p] == old(n).listeners[p]
    {
      hide Exact;
      var rest := n.listeners.Keys;
      while rest != {}
        invariant rest <= n.listeners.Keys <= old(n).listeners.Keys
        invariant Exact(n) && n.next == old(n).next && old(n).closes <= n.closes && n.refused == old(n).refused
        invariant forall p :: p in n.listeners ==> n.listeners[p] == old(n).listeners[p] && (p in rest || p in wanted)
        invariant forall p :: p in old(n).listeners && p in wanted ==> p in n.listeners
        decreases |rest|
      {
        var port :| port in rest;
        rest := rest - {port};
        if port !in wanted {
          ghost var before := n;
          CloseListener(n.listeners[port]);
          n := n.(listeners := n.listeners - {port});
          ClosesOne(before, port);
        }
      }
    }

    /** Opens what is wanted, then closes what is not. */
    method Reconcile(ports: seq<nat>)
      requires Exact(n)
      modifies this
      ensures Reconciled(old(n), ports, n)
    {
      hide Exact;
      var wanted := ListenOnWanted(ports);
      CloseUnwanted(wanted);
    }

    method CloseAll()
      requires Exact(n)
      modifies this
      ensures Exact(n) && n.next == old(n).next && n.listeners == map[]
    {
      var rest := n.listeners.Keys;
      while rest != {}
        invariant Exact(n) && n.next == old(n).next && n.listeners.Keys == rest
        decreases |rest|
      {
        var port :| port in rest;
        rest := rest - {port};
        ghost var before := n;
        CloseListener(n.listeners[port]);
        n := n.(listeners := n.listeners - {port});
        ClosesOne(before, port);
      }
      assert n.listeners.Keys == {};
    }

    /** Any number of rounds, then the end: no listener is left open, and each was closed once. */
    method Run(rounds: seq<seq<nat>>)
      requires Exact(n)
      modifies this
      ensures Exact(n) && n.listeners == map[] == n.open
      ensures forall l :: 0 <= l < n.next ==> l in n.closes
    {
      for i := 0 to |rounds|
        invariant Exact(n)
      {
        Reconcile(rounds[i]);
      }
      CloseAll();
      AllClosed(n);
    }
  }

  /** The first loop, when it has been through `done`. */
  ghost predicate Opened(a: Net, done: seq<nat>, b: Net) {
    && Exact(a) && Exact(b) && a.next <= b.next && a.closes == b.closes && a.refused <= b.refused
    && (forall p :: p in a.listeners ==> p in b.listeners && b.listeners[p] == a.listeners[p])
    && (forall p :: p in b.listeners && p !in a.listeners ==> p in done && a.next <= b.listeners[p])
    && (forall p :: p in done && p !in b.listeners ==> p in Refusals(a, b))
    && (forall p :: p in Refusals(a, b) ==> p in done && p !in a.listeners)
    && (Distinct(done) ==> Distinct(Refusals(a, b)) && forall p :: p in Refusals(a, b) ==> p !in b.listeners)
  }

  lemma NothingOpened(a: Net)
    requires Exact(a)
    ensures Opened(a, [], a)
  {
  }

  lemma LessIsDistinct(done: seq<nat>, port: nat)
    requires Distinct(done + [port])
    ensures Distinct(done) && port !in done
  {
    var more := done + [port];
    forall i, j | 0 <= i < j < |done| ensures done[i] != done[j] {
      assert more[i] != more[j];
    }
    forall i | 0 <= i < |done| ensures done[i] != port {
      assert more[i] != more[|done|];
    }
  }

  lemma OpensNothing(a: Net, done: seq<nat>, b: Net, port: nat)
    requires Opened(a, done, b) && port in b.listeners
    ensures Opened(a, done + [port], b)
  {
    hide Exact, Refusals;
    if Distinct(done + [port]) {
      LessIsDistinct(done, port);
    }
  }

  lemma IsRefused(a: Net, done: seq<nat>, b: Net, port: nat)
    requires Opened(a, done, b) && port !in b.listeners
    ensures Opened(a, done + [port], b.(refused := b.refused + [port]))
  {
    var c := b.(refused := b.refused + [port]);
    assert Refusals(a, c) == Refusals(a, b) + [port];
    assert Exact(c);
    hide Exact, Refusals;
    if Distinct(done + [port]) {
      hide Opened;
      LessIsDistinct(done, port);
      RefusedIsDone(a, done, b, port);
      MoreIsDistinct(Refusals(a, b), port);
    }
  }

  lemma RefusedIsDone(a: Net, done: seq<nat>, b: Net, port: nat)
    requires Opened(a, done, b) && Distinct(done) && port !in done
    ensures port !in Refusals(a, b) && Distinct(Refusals(a, b))
  {
    hide Exact, Refusals;
  }

  lemma MoreIsDistinct(s: seq<nat>, x: nat)
    requires Distinct(s) && x !in s
    ensures Distinct(s + [x])
  {
  }

  lemma OpensNew(a: Net, done: seq<nat>, b: Net, port: nat)
    requires Opened(a, done, b) && port !in b.listeners
    ensures Opened(a, done + [port], Net(b.listeners[port := b.next], b.open[b.next := port], b.closes, b.next + 1, b.refused))
  {
    NewIsExact(b, port);
    hide Exact;
    if Distinct(done + [port]) {
      LessIsDistinct(done, port);
    }
  }

  lemma NewIsExact(b: Net, port: nat)
    requires Exact(b) && port !in b.listeners
    ensures Exact(Net(b.listeners[port := b.next], b.open[b.next := port], b.closes, b.next + 1, b.refused))
  {
  }

  lemma ClosesOne(n: Net, port: nat)
    requires Exact(n) && port in n.listeners
    ensures Exact(Net(n.listeners - {port}, n.open - {n.listeners[port]}, n.closes + [n.listeners[port]], n.next, n.refused))
  {
  }

  lemma AllClosed(n: Net)
    requires Exact(n) && n.listeners == map[]
    ensures n.open == map[]
    ensures forall l :: 0 <= l < n.next ==> l in n.closes
  {
    assert forall l :: l !in n.open;
  }

  // ---- Whole runs ----

  ghost predicate Rounds(nets: seq<Net>, wanted: seq<seq<nat>>) {
    && |nets| == |wanted| + 1 && Exact(nets[0])
    && forall i :: 0 <= i < |wanted| ==> Reconciled(nets[i], wanted[i], nets[i + 1])
  }

  /** A round listens on wanted ports only; of the ports that a published list names it leaves out
      exactly those that it was refused, so it has all of them exactly when no Listen failed. */
  lemma ListensOnWantedIff(a: Net, wanted: seq<nat>, b: Net)
    requires Reconciled(a, wanted, b) && Ascending(wanted)
    ensures forall p :: p in b.listeners ==> p in wanted
    ensures forall p :: p in wanted ==> (p !in b.listeners <==> p in Refusals(a, b))
    ensures (forall p :: p in wanted ==> p in b.listeners) <==> b.refused == a.refused
  {
    assert Distinct(wanted);
    if b.refused != a.refused {
      assert Refusals(a, b) != [];
      var p := Refusals(a, b)[0];
      assert p in Refusals(a, b);
    }
  }

  /** A port that stays wanted from round to round keeps the listener it got. */
  lemma {:induction false} KeptWhileWanted(nets: seq<Net>, wanted: seq<seq<nat>>, i: nat, j: nat, p: nat)
    requires Rounds(nets, wanted) && i <= j <= |wanted|
    requires p in nets[i].listeners && forall k :: i <= k < j ==> p in wanted[k]
    ensures p in nets[j].listeners && nets[j].listeners[p] == nets[i].listeners[p]
    decreases j
  {
    if i < j {
      KeptWhileWanted(nets, wanted, i, j - 1, p);
      assert Reconciled(nets[j - 1], wanted[j - 1], nets[j - 1 + 1]);
    }
  }

  /** A port that is not wanted in a round is closed by it, and its listener is never used again. */
  lemma {:induction false} DroppedForGood(nets: seq<Net>, wanted: seq<seq<nat>>, i: nat, j: nat, p: nat)
    requires Rounds(nets, wanted) && i < j <= |wanted|
    requires p in nets[i].listeners && p !in wanted[i]
    ensures nets[i].listeners[p] in nets[j].closes && nets[i].listeners[p] !in nets[j].open
    decreases j
  {
    var l := nets[i].listeners[p];
    if j == i + 1 {
      assert Reconciled(nets[i], wanted[i], nets[i + 1]);
      RoundIsExact(nets, wanted, i);
    } else {
      DroppedForGood(nets, wanted, i, j - 1, p);
      assert Reconciled(nets[j - 1], wanted[j - 1], nets[j - 1 + 1]);
    }
  }

  lemma RoundIsExact(nets: seq<Net>, wanted: seq<seq<nat>>, i: nat)
    requires Rounds(nets, wanted) && i <= |wanted|
    ensures Exact(nets[i])
  {
    if i > 0 {
      assert Reconciled(nets[i - 1], wanted[i - 1], nets[i - 1 + 1]);
    }
  }
}
