/**
  Bringing an interface's addresses in line with the configured ones: look the
  interface up once, then run one `ip` command per address that is missing (or, when
  withdrawing, present).
 */
module NetConf {
  import opened Checker

  newtype byte = x: int | 0 <= x < 256

  datatype IPNet = IPNet(ip: seq<byte>, mask: seq<byte>)

  /** An entry of the interface's address list; only some are networks. */
  datatype Addr = NetAddr(net: IPNet) | OtherAddr

  const V4_PREFIX: seq<byte> := [0, 0, 0, 0, 0, 0, 0, 0, 0, 0, 0xff, 0xff]

  /** The one form of an address: four bytes for IPv4, also when it is written in
      sixteen. */
  function Canonical(ip: seq<byte>): seq<byte> {
    if |ip| == 16 && ip[..12] == V4_PREFIX then ip[12..] else ip
  }

  /** Go's net.IP.Equal: an IPv4 address equals its IPv4-in-IPv6 form. */
  predicate IPEqual(a: seq<byte>, b: seq<byte>)
    ensures IPEqual(a, b) <==> Canonical(a) == Canonical(b)
  {
    if |a| == |b| then
      assert |a| == 16 ==> a == a[..12] + a[12..] && b == b[..12] + b[12..];
      a == b
    else if |a| == 4 && |b| == 16 then b[..12] == V4_PREFIX && a == b[12..]
    else if |a| == 16 && |b| == 4 then a[..12] == V4_PREFIX && a[12..] == b
    else false
  }

  /** Addresses are equal if they are the same bytes, or if one is an IPv4 address and the other
      is the same with ten zero bytes and two of 255 before it; else they are not. */
  lemma IPEqualIff(a: seq<byte>, b: seq<byte>)
    ensures IPEqual(a, b) <==>
            || a == b
            || (|a| == 4 && b == [0, 0, 0, 0, 0, 0, 0, 0, 0, 0, 255, 255] + a)
            || (|b| == 4 && a == [0, 0, 0, 0, 0, 0, 0, 0, 0, 0, 255, 255] + b)
  {
    assert |a| == 16 ==> a == a[..12] + a[12..];
    assert |b| == 16 ==> b == b[..12] + b[12..];
  }

  /** What identifies an address on the interface. */
  datatype Key = Key(ip: seq<byte>, mask: seq<byte>)

  function KeyOf(n: IPNet): Key {
    Key(Canonical(n.ip), n.mask)
  }

  /** Networks are the same exactly if their addresses are equal and so are their masks. */
  lemma SameKeyIff(a: IPNet, b: IPNet)
    ensures KeyOf(a) == KeyOf(b) <==> IPEqual(a.ip, b.ip) && a.mask == b.mask
  {
  }

  function Keys(a: seq<IPNet>): set<Key> {
    set i | 0 <= i < |a| :: KeyOf(a[i])
  }

  function Listed(ns: seq<Addr>): set<Key> {
    set i | 0 <= i < |ns| && ns[i].NetAddr? :: KeyOf(ns[i].net)
  }

  method IPMaskEqual(a: seq<byte>, b: seq<byte>) returns (equal: bool)
    ensures equal <==> a == b
  {
    if |a| != |b| {
      return false;
    }
    for i := 0 to |a|
      invariant a[..i] == b[..i]
    {
      if a[i] != b[i] {
        return false;
      }
    }
    return true;
  }

  method FindIPNet(n: IPNet, ns: seq<Addr>) returns (found: bool)
    ensures found <==> KeyOf(n) in Listed(ns)
    ensures found <==> exists j :: 0 <= j < |ns| && ns[j].NetAddr? && IPEqual(ns[j].net.ip, n.ip) &&
                                   ns[j].net.mask == n.mask
  {
    for i := 0 to |ns|
      invariant forall j :: 0 <= j < i && ns[j].NetAddr? ==> KeyOf(ns[j].net) != KeyOf(n)
    {
      if ns[i].NetAddr? && IPEqual(ns[i].net.ip, n.ip) {
        var sameMask := IPMaskEqual(ns[i].net.mask, n.mask);
        if sameMask {
          return true;
        }
      }
    }
    return false;
  }

  // ---------------------------------------------------------------- the outside world

  /** How an `ip` command ends. One that fails may still have taken effect. */
  datatype Exec = Done | Failed(applied: bool, text: string)

  function Applied(e: Exec): bool {
    e.Done? || e.applied
  }

  /** The interface look-up of one pass, and how the command for the i-th configured
      address would end. */
  datatype Env = Env(lookup: Result, execs: seq<Exec>)

  datatype Result = Entries(addrs: seq<Addr>) | LookupError(text: string)

  datatype Action = Add | Del

  /** The interface, the errors and the commands after a pass over the first n addresses. */
  datatype Pass = Pass(present: set<Key>, errs: seq<string>, commands: seq<Key>)

  /** Whether this address needs a command. */
  predicate Wanted(action: Action, n: IPNet, listed: set<Key>) {
    match action
    case Add => KeyOf(n) !in listed
    case Del => KeyOf(n) in listed
  }

  function Effect(action: Action, n: IPNet, present: set<Key>): set<Key> {
    match action
    case Add => present + {KeyOf(n)}
    case Del => present - {KeyOf(n)}
  }

  function PassOver(action: Action, a: seq<IPNet>, listed: set<Key>, execs: seq<Exec>, present: set<Key>, n: nat): Pass
    requires n <= |a| == |execs|
  {
    if n == 0 then Pass(present, [], [])
    else
      var p := PassOver(action, a, listed, execs, present, n - 1);
      if !Wanted(action, a[n - 1], listed) then p
      else
        var e := execs[n - 1];
        Pass(if Applied(e) then Effect(action, a[n - 1], p.present) else p.present,
             if e.Failed? then p.errs + [e.text] else p.errs,
             p.commands + [KeyOf(a[n - 1])])
  }

  /** One call of IfaceAddrAdd or IfaceAddrDel. */
  function Reconcile(action: Action, a: seq<IPNet>, env: Env, present: set<Key>): Pass
    requires |env.execs| == |a|
  {
    match env.lookup
    case LookupError(text) => Pass(present, [text], [])
    case Entries(addrs) => PassOver(action, a, Listed(addrs), env.execs, present, |a|)
  }

  /** Nobody else changes the interface: the look-up, if it works, shows it as it is. */
  predicate Faithful(env: Env, present: set<Key>) {
    env.lookup.Entries? ==> Listed(env.lookup.addrs) == present
  }

  predicate AllWork(env: Env) {
    env.lookup.Entries? && forall i :: 0 <= i < |env.execs| ==> env.execs[i].Done?
  }

  class Interface {
    var present: set<Key>
    /** The commands run so far. */
    ghost var commands: seq<Key>

    constructor (present: set<Key>)
      ensures this.present == present && commands == []
    {
      this.present := present;
      commands := [];
    }

    /** Run `ip addr add` or `ip addr del` for one address. */
    method IpExec(action: Action, n: IPNet, e: Exec) returns (err: ErrorText)
      modifies this
      ensures present == if Applied(e) then Effect(action, n, old(present)) else old(present)
      ensures commands == old(commands) + [KeyOf(n)]
      ensures err == if e.Failed? then Some(e.text) else None
    {
      commands := commands + [KeyOf(n)];
      if Applied(e) {
        present := Effect(action, n, present);
      }
      return if e.Failed? then Some(e.text) else None;
    }

    method AddrAdd(a: seq<IPNet>, env: Env) returns (errs: seq<string>)
      requires |env.execs| == |a|
      modifies this
      ensures var p := Reconcile(Add, a, env, old(present));
              present == p.present && errs == p.errs && commands == old(commands) + p.commands
    {
      errs := [];
      if env.lookup.LookupError? {
        return [env.lookup.text];
      }
      ghost var listed, ran := Listed(env.lookup.addrs), [];
      for i := 0 to |a|
        invariant PassOver(Add, a, listed, env.execs, old(present), i) == Pass(present, errs, ran)
        invariant commands == old(commands) + ran
      {
        var found := FindIPNet(a[i], env.lookup.addrs);
        if !found {
          var err := IpExec(Add, a[i], env.execs[i]);
          ran := ran + [KeyOf(a[i])];
          if err.Some? {
            errs := errs + [err.value];
          }
        }
      }
    }

    method AddrDel(a: seq<IPNet>, env: Env) returns (errs: seq<string>)
      requires |env.execs| == |a|
      modifies this
      ensures var p := Reconcile(Del, a, env, old(present));
              present == p.present && errs == p.errs && commands == old(commands) + p.commands
    {
      errs := [];
      if env.lookup.LookupError? {
        return [env.lookup.text];
      }
      ghost var listed, ran := Listed(env.lookup.addrs), [];
      for i := 0 to |a|
        invariant PassOver(Del, a, listed, env.execs, old(present), i) == Pass(present, errs, ran)
        invariant commands == old(commands) + ran
      {
        var found := FindIPNet(a[i], env.lookup.addrs);
        if found {
          var err := IpExec(Del, a[i], env.execs[i]);
          ran := ran + [KeyOf(a[i])];
          if err.Some? {
            errs := errs + [err.value];
          }
        }
      }
    }
  }

  // ---------------------------------------------------------------- what a pass achieves

  /** The addresses among the first n whose command ran and took effect. */
  function Changed(action: Action, a: seq<IPNet>, listed: set<Key>, execs: seq<Exec>, n: nat): set<Key>
    requires n <= |a| == |execs|
  {
    set i | 0 <= i < n && Wanted(action, a[i], listed) && Applied(execs[i]) :: KeyOf(a[i])
  }

  lemma {:induction false} PassIs(action: Action, a: seq<IPNet>, listed: set<Key>, execs: seq<Exec>,
                                  present: set<Key>, n: nat)
    requires n <= |a| == |execs|
    ensures var p, c := PassOver(action, a, listed, execs, present, n), Changed(action, a, listed, execs, n);
            && p.present == (if action.Add? then present + c else present - c)
            && (p.errs == [] <==> forall i :: 0 <= i < n && Wanted(action, a[i], listed) ==> execs[i].Done?)
            && (p.commands == [] <==> forall i :: 0 <= i < n ==> !Wanted(action, a[i], listed))
  {
    if n > 0 {
      PassIs(action, a, listed, execs, present, n - 1);
      var c := Changed(action, a, listed, execs, n - 1);
      assert Changed(action, a, listed, execs, n) ==
             if Wanted(action, a[n - 1], listed) && Applied(execs[n - 1]) then c + {KeyOf(a[n - 1])} else c;
    }
  }

  /** How many members of s are below n. */
  function Before(s: set<nat>, n: nat): nat {
    |set j | j in s && j < n|
  }

  lemma BeforeStep(s: set<nat>, n: nat)
    ensures Before(s, 0) == 0
    ensures Before(s, n + 1) == Before(s, n) + if n in s then 1 else 0
  {
    assert (set j | j in s && j < 0) == {};
    var less := set j | j in s && j < n;
    assert (set j | j in s && j < n + 1) == if n in s then less + {n} else less;
  }

  lemma BeforeAll(s: set<nat>, n: nat)
    requires forall j :: j in s ==> j < n
    ensures Before(s, n) == |s|
  {
    assert (set j | j in s && j < n) == s;
  }

  /** The configured addresses that have to be changed: those not listed if they are to be
      added, those listed if they are to be deleted. */
  function Needed(action: Action, a: seq<IPNet>, listed: set<Key>): set<nat> {
    set i: nat | i < |a| && (KeyOf(a[i]) in listed <==> action.Del?)
  }

  function Failing(action: Action, a: seq<IPNet>, listed: set<Key>, execs: seq<Exec>): set<nat>
    requires |a| == |execs|
  {
    set i | i in Needed(action, a, listed) && execs[i].Failed?
  }

  lemma {:induction false} PassTells(action: Action, a: seq<IPNet>, listed: set<Key>, execs: seq<Exec>,
                                     present: set<Key>, n: nat, i: nat)
    requires n <= |a| == |execs|
    ensures var p, needed, failing := PassOver(action, a, listed, execs, present, n), Needed(action, a, listed),
                                      Failing(action, a, listed, execs);
            && |p.commands| == Before(needed, n) && |p.errs| == Before(failing, n)
            && (i in needed && i < n ==>
                  Before(needed, i) < |p.commands| && p.commands[Before(needed, i)] == KeyOf(a[i]))
            && (i in failing && i < n ==>
                  Before(failing, i) < |p.errs| && p.errs[Before(failing, i)] == execs[i].text)
  {
    hide Before, Needed, Failing, KeyOf, Effect;
    var needed, failing := Needed(action, a, listed), Failing(action, a, listed, execs);
    if n == 0 {
      BeforeStep(needed, 0);
      BeforeStep(failing, 0);
    } else {
      PassTells(action, a, listed, execs, present, n - 1, i);
      BeforeStep(needed, n - 1);
      BeforeStep(failing, n - 1);
      NeededIf(action, a, listed, execs, n - 1);
    }
  }

  lemma NeededIf(action: Action, a: seq<IPNet>, listed: set<Key>, execs: seq<Exec>, i: nat)
    requires i < |a| == |execs|
    ensures i in Needed(action, a, listed) <==> Wanted(action, a[i], listed)
    ensures i in Failing(action, a, listed, execs) <==> Wanted(action, a[i], listed) && execs[i].Failed?
  {
  }

  /** What a pass does and tells. If the look-up fails it tells just that and runs nothing. Else
      it runs one command for every address that has to be changed, in the order in which they
      are configured, and tells the errors of those that fail, in the same order. */
  lemma PassReport(action: Action, a: seq<IPNet>, env: Env, present: set<Key>)
    requires |env.execs| == |a|
    ensures var p := Reconcile(action, a, env, present);
            match env.lookup
            case LookupError(text) => p.errs == [text] && p.commands == [] && p.present == present
            case Entries(addrs) =>
              var needed := Needed(action, a, Listed(addrs));
              var failing := Failing(action, a, Listed(addrs), env.execs);
              && |p.commands| == |needed| && |p.errs| == |failing|
              && (forall i: nat :: i in needed ==>
                    Before(needed, i) < |needed| && p.commands[Before(needed, i)] == KeyOf(a[i]))
              && (forall i: nat :: i in failing ==>
                    Before(failing, i) < |failing| && p.errs[Before(failing, i)] == env.execs[i].text)
  {
    hide PassOver, Listed, KeyOf, Before;
    if env.lookup.Entries? {
      var listed := Listed(env.lookup.addrs);
      var needed, failing := Needed(action, a, listed), Failing(action, a, listed, env.execs);
      BeforeAll(needed, |a|);
      BeforeAll(failing, |a|);
      PassTells(action, a, listed, env.execs, present, |a|, 0);
      forall i: nat | i in needed
        ensures var p := Reconcile(action, a, env, present);
                Before(needed, i) < |needed| && p.commands[Before(needed, i)] == KeyOf(a[i])
      {
        PassTells(action, a, listed, env.execs, present, |a|, i);
      }
      forall i: nat | i in failing
        ensures var p := Reconcile(action, a, env, present);
                Before(failing, i) < |failing| && p.errs[Before(failing, i)] == env.execs[i].text
      {
        PassTells(action, a, listed, env.execs, present, |a|, i);
      }
    }
  }

  /** When a pass reports no error, and the look-up was truthful, all configured
      addresses are there after an add and none is after a delete. Whatever fails, an
      add only adds and a delete only deletes, and only configured addresses. */
  lemma PassGuarantees(action: Action, a: seq<IPNet>, env: Env, present: set<Key>)
    requires |env.execs| == |a| && Faithful(env, present)
    ensures var p := Reconcile(action, a, env, present);
            match action
            case Add =>
              && present <= p.present <= present + Keys(a)
              && (p.errs == [] ==> p.present == present + Keys(a))
            case Del =>
              && present - Keys(a) <= p.present <= present
              && (p.errs == [] ==> p.present == present - Keys(a))
  {
    if env.lookup.Entries? {
      var c := Changed(action, a, present, env.execs, |a|);
      PassIs(action, a, present, env.execs, present, |a|);
      assert c <= Keys(a);
      var p := Reconcile(action, a, env, present);
      if p.errs == [] {
        forall k | k in Keys(a) && (k in present <==> action.Del?) ensures k in c {
          var i :| 0 <= i < |a| && KeyOf(a[i]) == k;
          assert Wanted(action, a[i], present) && Applied(env.execs[i]);
        }
      }
    }
  }

  /** A pass reports no error exactly when the look-up and all commands it runs work. */
  lemma NoErrorIff(action: Action, a: seq<IPNet>, env: Env, present: set<Key>)
    requires |env.execs| == |a| && Faithful(env, present)
    ensures Reconcile(action, a, env, present).errs == [] <==>
            && env.lookup.Entries?
            && forall i :: 0 <= i < |a| && (KeyOf(a[i]) in present <==> action.Del?) ==> env.execs[i].Done?
  {
    if env.lookup.Entries? {
      PassIs(action, a, present, env.execs, present, |a|);
      assert forall i :: 0 <= i < |a| ==>
               (Wanted(action, a[i], present) <==> (KeyOf(a[i]) in present <==> action.Del?));
    }
  }

  /** After a pass without error a second one runs no command. */
  lemma RepeatRunsNothing(action: Action, a: seq<IPNet>, env: Env, again: Env, present: set<Key>)
    requires |env.execs| == |again.execs| == |a| && Faithful(env, present)
    requires Reconcile(action, a, env, present).errs == []
    requires Faithful(again, Reconcile(action, a, env, present).present)
    ensures var p := Reconcile(action, a, env, present);
            Reconcile(action, a, again, p.present).commands == []
  {
    PassGuarantees(action, a, env, present);
    var now := Reconcile(action, a, env, present).present;
    if again.lookup.Entries? {
      PassIs(action, a, now, again.execs, now, |a|);
      forall i | 0 <= i < |a| ensures !Wanted(action, a[i], now) {
        assert KeyOf(a[i]) in Keys(a);
      }
    }
  }

  /** Adding and then deleting without error restores an interface that had none of the
      configured addresses, and only such a one. */
  lemma AddThenDel(a: seq<IPNet>, add: Env, del: Env, present: set<Key>)
    requires |add.execs| == |del.execs| == |a| && Faithful(add, present)
    requires Faithful(del, Reconcile(Add, a, add, present).present)
    requires Reconcile(Add, a, add, present).errs == []
    requires Reconcile(Del, a, del, Reconcile(Add, a, add, present).present).errs == []
    ensures Reconcile(Del, a, del, Reconcile(Add, a, add, present).present).present == present - Keys(a)
    ensures Reconcile(Del, a, del, Reconcile(Add, a, add, present).present).present == present <==> present !! Keys(a)
  {
    var mid := Reconcile(Add, a, add, present).present;
    PassGuarantees(Add, a, add, present);
    PassGuarantees(Del, a, del, mid);
    assert (present + Keys(a)) - Keys(a) == present - Keys(a);
    assert present - Keys(a) == present <==> present !! Keys(a);
  }
}
