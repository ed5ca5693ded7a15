/**
  The service supervisor (user/bin/vigil/main.c): a table of services updated by commands, by the deaths of
  children and by a retry at the end of every pass. Which children die, which forks fail, which process
  numbers the kernel hands out and which commands arrive are left open at every step.
 */
module Supervisor {
  import opened Common

  datatype Policy = Respawn | Oneshot

  datatype Service = Service(
    name: string, policy: Policy, maxRestarts: int, pid: int, restarts: int, active: bool, expectedStop: bool)

  datatype Command = Start | Stop | Restart

  /** The restarts a service may have. */
  function Budget(s: Service): nat {
    if s.maxRestarts > 0 then s.maxRestarts else 0
  }

  /** What a command does to a service's record, before anything is started. */
  function Commanded(s: Service, cmd: Command): Service {
    match cmd
    case Start => s.(active := true, restarts := 0)
    case Stop => s.(expectedStop := s.expectedStop || s.pid > 0, active := false)
    case Restart => s.(expectedStop := s.expectedStop || s.pid > 0, active := true, restarts := 0)
  }

  /** What the death of its child does to a service's record, before anything is started. */
  function Died(s: Service): Service {
    var t := s.(pid := -1, expectedStop := false);
    if !s.active then t
    else if s.policy == Oneshot || s.restarts >= s.maxRestarts then t.(active := false)
    else t.(restarts := s.restarts + 1)
  }

  /** The supervisor will start it, at once or in a later pass. */
  predicate Wanted(s: Service) {
    s.active && s.pid <= 0
  }

  /** Restarting a running service brings it back exactly when it respawns and may restart at all. */
  lemma RestartOfRunning(s: Service)
    requires s.pid > 0
    ensures Wanted(Died(Commanded(s, Restart))) <==> s.policy == Respawn && s.maxRestarts > 0
  {
  }

  /**
    The death of a running service: it is wanted again exactly if it is active, respawns and has restarts left, which
    costs it one; otherwise it is off, and nothing is said of its restarts any more.
   */
  lemma DeathDecides(s: Service)
    ensures Wanted(Died(s)) <==> s.active && s.policy == Respawn && s.restarts < s.maxRestarts
    ensures Died(s) == s.(pid := -1, expectedStop := false, active := Wanted(Died(s)),
                          restarts := s.restarts + if Wanted(Died(s)) then 1 else 0)
  {
  }

  /** `n` deaths in a row, with a new child after each. */
  function Deaths(s: Service, n: nat): Service {
    if n == 0 then s else Died(Deaths(s, n - 1).(pid := s.pid))
  }

  /** A service that keeps dying is brought back exactly as often as its restarts allow, and then never again. */
  lemma {:induction false} KeepsDying(s: Service, n: nat)
    requires s.active && s.policy == Respawn && 0 <= s.restarts && n > 0
    ensures Wanted(Deaths(s, n)) <==> n <= s.maxRestarts - s.restarts
    ensures Wanted(Deaths(s, n)) ==> Deaths(s, n) == s.(pid := -1, expectedStop := false, restarts := s.restarts + n)
    ensures !Wanted(Deaths(s, n)) ==> !Deaths(s, n).active
    decreases n
  {
    if n > 1 {
      KeepsDying(s, n - 1);
    }
  }

  /**
    Start makes a service without a child wanted and leaves a running one running; after a stop nothing brings the
    service back but a command; both kinds of start give back all restarts.
   */
  lemma CommandDecides(s: Service)
    ensures Wanted(Commanded(s, Start)) <==> s.pid <= 0
    ensures Wanted(Commanded(s, Restart)) <==> s.pid <= 0
    ensures !Wanted(Commanded(s, Stop)) && !Wanted(Died(Commanded(s, Stop)))
    ensures Commanded(s, Start).restarts == Commanded(s, Restart).restarts == 0
    ensures Commanded(s, Stop) == s.(active := false, expectedStop := s.expectedStop || s.pid > 0)
    ensures Commanded(s, Restart) == Commanded(s, Start).(expectedStop := s.expectedStop || s.pid > 0)
    ensures Commanded(s, Start) == s.(active := true, restarts := 0)
  {
  }

  /** Some process number is free. */
  lemma {:induction false} FreshExists(procs: set<int>) returns (p: int)
    ensures p > 0 && p !in procs && forall q | q in procs :: q < p
  {
    if x :| x in procs {
      var q := FreshExists(procs - {x});
      p := if q > x then q else x + 1;
      assert procs == procs - {x} + {x};
    } else {
      p := 1;
    }
  }

  /** A service with what it has been given: the unreaped children forked for it, and how many were forked. */
  datatype Slot = Slot(s: Service, ghost children: set<int>, ghost forks: nat)

  /** At most one child, the one on record, and no more forks than the budget plus one allows. */
  ghost predicate Tidy(t: Slot, procs: set<int>) {
    && t.children == (if t.s.pid > 0 then {t.s.pid} else {})
    && t.children <= procs
    && 0 <= t.s.restarts <= Budget(t.s)
    && t.forks <= t.s.restarts + 1
    && (Wanted(t.s) ==> t.forks <= t.s.restarts)
  }

  /** Every service is tidy and no two share a child. */
  ghost predicate Sound(slots: seq<Slot>, procs: set<int>) {
    && (forall p | p in procs :: p > 0)
    && (forall i | 0 <= i < |slots| :: Tidy(slots[i], procs))
    && (forall i, j | 0 <= i < |slots| && 0 <= j < |slots| && i != j && slots[i].s.pid > 0 ::
          slots[i].s.pid != slots[j].s.pid)
  }

  lemma BoundedForks(slots: seq<Slot>, procs: set<int>, i: nat)
    requires Sound(slots, procs) && i < |slots|
    ensures |slots[i].children| <= 1 && slots[i].forks <= Max(slots[i].s.maxRestarts, 0) + 1
  {
  }

  /** A service without a child, given a new one. */
  ghost function WithChild(t: Slot, pid: int): Slot {
    Slot(t.s.(pid := pid), t.children + {pid}, t.forks + 1)
  }

  lemma StartSound(slots: seq<Slot>, procs: set<int>, i: nat, pid: int)
    requires Sound(slots, procs) && i < |slots| && slots[i].s.pid <= 0 && slots[i].forks <= slots[i].s.restarts
    requires pid > 0 && pid !in procs
    ensures Sound(slots[i := WithChild(slots[i], pid)], procs + {pid})
  {
    var next := slots[i := WithChild(slots[i], pid)];
    forall k | 0 <= k < |slots| && k != i ensures next[k].s.pid != pid {
      assert Tidy(slots[k], procs);
    }
  }

  /** The command's new record; start and restart begin a new count of forks. */
  ghost function CommandedSlot(t: Slot, cmd: Command): Slot {
    Slot(Commanded(t.s, cmd), t.children, if cmd == Stop then t.forks else 0)
  }

  lemma CommandSound(slots: seq<Slot>, procs: set<int>, i: nat, cmd: Command)
    requires Sound(slots, procs) && i < |slots|
    ensures Sound(slots[i := CommandedSlot(slots[i], cmd)], procs)
  {
    assert Tidy(slots[i], procs);
  }

  ghost function DiedSlot(t: Slot): Slot {
    Slot(Died(t.s), {}, t.forks)
  }

  lemma DeathSound(slots: seq<Slot>, procs: set<int>, i: nat)
    requires Sound(slots, procs) && i < |slots| && slots[i].s.pid > 0
    ensures Sound(slots[i := DiedSlot(slots[i])], procs - {slots[i].s.pid})
  {
    var dead := slots[i].s.pid;
    assert Tidy(slots[i], procs);
    var next := slots[i := DiedSlot(slots[i])];
    forall k | 0 <= k < |slots| ensures Tidy(next[k], procs - {dead}) {
      assert Tidy(slots[k], procs);
    }
  }

  /** The death of a process that is nobody's child on record. */
  lemma OrphanSound(slots: seq<Slot>, procs: set<int>, dead: int)
    requires Sound(slots, procs) && forall i | 0 <= i < |slots| :: slots[i].s.pid != dead
    ensures Sound(slots, procs - {dead})
  {
    forall k | 0 <= k < |slots| ensures Tidy(slots[k], procs - {dead}) {
      assert Tidy(slots[k], procs);
    }
  }

  /** The services among the first `n` that want a child, in the order of the table. */
  ghost function Wanting(slots: seq<Slot>, n: nat): seq<nat>
    requires n <= |slots|
  {
    if n == 0 then [] else Wanting(slots, n - 1) + if Wanted(slots[n - 1].s) then [n - 1] else []
  }

  /** Those that a command makes want one. */
  ghost function WantingBy(slots: seq<Slot>, cmd: Command, name: string, n: nat): seq<nat>
    requires n <= |slots|
  {
    if n == 0 then []
    else
      var s := slots[n - 1].s;
      WantingBy(slots, cmd, name, n - 1) + if s.name == name && cmd != Stop && s.pid <= 0 then [n - 1] else []
  }

  /** The children that a command ends. */
  ghost function EndedBy(slots: seq<Slot>, cmd: Command, name: string, n: nat): seq<int>
    requires n <= |slots|
  {
    if n == 0 then []
    else
      var s := slots[n - 1].s;
      EndedBy(slots, cmd, name, n - 1) + if s.name == name && cmd != Start && s.pid > 0 then [s.pid] else []
  }

  class Supervisor {
    var slots: seq<Slot>
    var procs: set<int>     // the children not yet waited for, forked or inherited

    /** For which services the kernel was asked for a child, in order, and how often it refused. */
    ghost var asked: seq<nat>
    ghost var refusals: nat
    /** The processes that were sent a SIGTERM, in order. */
    ghost var ended: seq<int>

    ghost predicate Valid()
      reads this
    {
      Sound(slots, procs)
    }

    /** Only service `i` is touched. */
    twostate predicate OnlySlot(i: nat)
      reads `slots
    {
      |slots| == old(|slots|) && forall k | 0 <= k < |slots| && k != i :: slots[k] == old(slots[k])
    }

    /** No inactive service is activated or gets a child. */
    twostate predicate InactiveStay()
      reads `slots
    {
      && |slots| == old(|slots|)
      && forall k | 0 <= k < |slots| && !old(slots[k].s.active) ::
           !slots[k].s.active && slots[k].children <= old(slots[k].children) && slots[k].forks == old(slots[k].forks)
    }

    /** The kernel either refuses or hands out a process number that nothing unreaped has. */
    method Fork(ghost i: nat) returns (pid: int)
      modifies `procs, `asked, `refusals
      ensures pid > 0 ==> pid !in old(procs) && procs == old(procs) + {pid} && refusals == old(refusals)
      ensures pid <= 0 ==> procs == old(procs) && refusals == old(refusals) + 1
      ensures asked == old(asked) + [i]
    {
      asked := asked + [i];
      var granted: bool := *;
      if !granted {
        refusals := refusals + 1;
        return -1;
      }
      ghost var free := FreshExists(procs);
      pid :| pid > 0 && pid !in procs;
      procs := procs + {pid};
    }

    /** kill with SIGTERM; when the process dies is left open. */
    method Terminate(pid: int)
      modifies `ended
      ensures ended == old(ended) + [pid]
    {
      ended := ended + [pid];
    }

    /** A running service is left alone; for another the kernel is asked, and it gets one child if it grants that. */
    method StartService(i: nat)
      requires Valid() && i < |slots| && (slots[i].s.pid <= 0 ==> slots[i].forks <= slots[i].s.restarts)
      modifies this
      ensures Valid() && OnlySlot(i)
      ensures slots[i] == old(slots[i]) || (old(slots[i]).s.pid <= 0 < slots[i].s.pid
        && slots[i].s.pid !in old(procs) && slots[i] == WithChild(old(slots[i]), slots[i].s.pid))
      ensures asked == old(asked) + (if old(slots[i].s.pid) <= 0 then [i] else []) && ended == old(ended)
      ensures old(refusals) <= refusals && (refusals == old(refusals) ==> slots[i].s.pid > 0)
    {
      hide Sound;
      if slots[i].s.pid > 0 {
        return;
      }
      var pid := Fork(i);
      if pid > 0 {
        StartSound(slots, old(procs), i, pid);
        slots := slots[i := Slot(slots[i].s.(pid := pid), slots[i].children + {pid}, slots[i].forks + 1)];
      }
    }

    /** One command, for one service. */
    method ObeyOne(i: nat, cmd: Command)
      requires Valid() && i < |slots|
      modifies this
      ensures Valid() && OnlySlot(i) && Obeyed(old(slots[i]), slots[i], cmd)
      ensures asked == old(asked) + (if cmd != Stop && old(slots[i].s.pid) <= 0 then [i] else [])
      ensures ended == old(ended) + (if cmd != Start && old(slots[i].s.pid) > 0 then [old(slots[i].s.pid)] else [])
      ensures old(refusals) <= refusals
    {
      hide Sound, Commanded;
      if cmd != Start && slots[i].s.pid > 0 {
        Terminate(slots[i].s.pid);
      }
      CommandSound(slots, procs, i, cmd);
      CommandedRestarts(slots[i], cmd);
      slots := slots[i := Slot(Commanded(slots[i].s, cmd), slots[i].children,
                               if cmd == Stop then slots[i].forks else 0)];
      if cmd != Stop {
        StartService(i);
      }
    }

    /** One command, for every service of that name. */
    method Obey(cmd: Command, name: string)
      requires Valid()
      modifies this
      ensures Valid() && |slots| == old(|slots|)
      ensures forall k | 0 <= k < |slots| ::
        if old(slots[k].s.name) != name then slots[k] == old(slots[k])
        else Obeyed(old(slots[k]), slots[k], cmd)
      ensures asked == old(asked) + WantingBy(old(slots), cmd, name, |old(slots)|)
      ensures ended == old(ended) + EndedBy(old(slots), cmd, name, |old(slots)|)
      ensures old(refusals) <= refusals
    {
      hide Sound, Obeyed, Following, WantingBy, EndedBy;
      var i := 0;
      ghost var was := slots;
      NoneYet(was, cmd, name);
      while i < |slots|
        invariant 0 <= i <= |slots| == |was| && Valid() && Following(was, slots, cmd, name, i)
        invariant asked == old(asked) + WantingBy(was, cmd, name, i)
        invariant ended == old(ended) + EndedBy(was, cmd, name, i) && old(refusals) <= refusals
      {
        ghost var before := slots;
        OneMore(was, before, cmd, name, i);
        if slots[i].s.name == name {
          ObeyOne(i, cmd);
        }
        OneFollows(was, before, slots, cmd, name, i);
        i := i + 1;
      }
      AllFollow(was, slots, cmd, name);
    }

    /** A child has died: its service is started again if its policy and budget say so. */
    method Reap(dead: int)
      requires Valid() && dead > 0
      modifies this
      ensures Valid() && |slots| == old(|slots|) && InactiveStay()
      ensures forall k | 0 <= k < |slots| ::
        if old(slots[k].s.pid) == dead then Buried(old(slots[k]), slots[k]) else slots[k] == old(slots[k])
      ensures old(refusals) <= refusals && ended == old(ended)
      ensures forall k | 0 <= k < |slots| && old(slots[k].s.pid) == dead ::
        && asked == old(asked) + (if Wanted(Died(old(slots[k].s))) then [k] else [])
        && (refusals == old(refusals) ==> !Wanted(slots[k].s))
      ensures (forall k | 0 <= k < |slots| :: old(slots[k].s.pid) != dead) ==> asked == old(asked)
    {
      hide Sound, Died;
      var i := 0;
      while i < |slots| && slots[i].s.pid != dead
        invariant 0 <= i <= |slots|
        invariant forall k | 0 <= k < i :: slots[k].s.pid != dead
      {
        i := i + 1;
      }
      if i == |slots| {
        OrphanSound(slots, procs, dead);
        procs := procs - {dead};
        return;
      }
      OnlyOne(slots, procs, i);
      DeathSound(slots, procs, i);
      DiedRestarts(slots[i], procs);
      procs := procs - {dead};
      slots := slots[i := Slot(Died(slots[i].s), {}, slots[i].forks)];
      if slots[i].s.active {
        StartService(i);
      }
    }

    /** Once per pass, every active service without a child is tried again. */
    method Retry()
      requires Valid()
      modifies this
      ensures Valid() && |slots| == old(|slots|) && InactiveStay()
      ensures forall k | 0 <= k < |slots| ::
        slots[k] == old(slots[k])
        || (Wanted(old(slots[k]).s) && 0 < slots[k].s.pid && slots[k] == WithChild(old(slots[k]), slots[k].s.pid))
      ensures asked == old(asked) + Wanting(old(slots), |old(slots)|) && ended == old(ended)
      ensures old(refusals) <= refusals
      ensures refusals == old(refusals) ==> forall k | 0 <= k < |slots| :: !Wanted(slots[k].s)
    {
      hide Sound;
      var i := 0;
      while i < |slots|
        invariant 0 <= i <= |slots| == old(|slots|) && Valid()
        invariant forall k | 0 <= k < i ::
          slots[k] == old(slots[k])
          || (Wanted(old(slots[k]).s) && 0 < slots[k].s.pid && slots[k] == WithChild(old(slots[k]), slots[k].s.pid))
        invariant forall k | i <= k < |slots| :: slots[k] == old(slots[k])
        invariant asked == old(asked) + Wanting(old(slots), i) && ended == old(ended) && old(refusals) <= refusals
        invariant refusals == old(refusals) ==> forall k | 0 <= k < i :: !Wanted(slots[k].s)
      {
        if slots[i].s.active && slots[i].s.pid <= 0 {
          WantedRestarts(slots, procs, i);
          StartService(i);
        }
        i := i + 1;
      }
    }

    /** An orphan is handed to the supervisor. */
    method Inherit()
      requires Valid()
      modifies `procs
      ensures Valid()
    {
      ghost var free := FreshExists(procs);
      var p: int :| p > 0 && p !in procs;
      procs := procs + {p};
    }

    /**
      One pass without a command: any number of deaths in any order, then the retry. If the kernel refuses nothing,
      every active service has its child afterwards.
     */
    method Pass()
      requires Valid()
      modifies this
      ensures Valid() && InactiveStay() && old(refusals) <= refusals
      ensures refusals == old(refusals) ==> forall k | 0 <= k < |slots| :: !Wanted(slots[k].s)
    {
      var deaths: nat := *;
      while deaths > 0
        invariant Valid() && InactiveStay() && old(refusals) <= refusals
      {
        var orphan: bool := *;
        if orphan {
          Inherit();
        }
        if dead: int :| dead in procs {
          Reap(dead);
        }
        deaths := deaths - 1;
      }
      Retry();
    }

    /** Boot: the services that do not belong to this boot are off, the others get their first start. */
    constructor (loaded: seq<Service>, eligible: seq<bool>)
      requires |eligible| == |loaded|
      requires forall i | 0 <= i < |loaded| :: loaded[i].pid == -1 && loaded[i].restarts == 0 && loaded[i].active
      ensures Valid() && |slots| == |loaded|
      ensures forall k | 0 <= k < |slots| :: slots[k].s == loaded[k].(pid := slots[k].s.pid, active := eligible[k])
      ensures forall k | 0 <= k < |slots| && !eligible[k] :: slots[k].children == {} && slots[k].forks == 0
      ensures refusals == 0 ==> forall k | 0 <= k < |slots| && eligible[k] :: slots[k].s.pid > 0
    {
      procs, asked, refusals, ended := {}, [], 0, [];
      slots := seq(|loaded|, i requires 0 <= i < |loaded| => Slot(loaded[i].(active := eligible[i]), {}, 0));
      new;
      Retry();
    }

    /** Any run: passes, with or without commands before them, for as long as it lasts. */
    method Run(commands: seq<(Command, string)>, passes: nat)
      requires Valid()
      modifies this
      ensures Valid() && |slots| == old(|slots|)
      ensures forall k | 0 <= k < |slots| ::
        |slots[k].children| <= 1 && slots[k].forks <= Max(slots[k].s.maxRestarts, 0) + 1
      ensures passes > 0 && refusals == old(refusals) ==> forall k | 0 <= k < |slots| :: !Wanted(slots[k].s)
    {
      var i, n := 0, passes;
      while n > 0
        invariant 0 <= i <= |commands| && Valid() && |slots| == old(|slots|) && n <= passes && old(refusals) <= refusals
        invariant n < passes && refusals == old(refusals) ==> forall k | 0 <= k < |slots| :: !Wanted(slots[k].s)
      {
        var signalled: bool := *;
        if signalled && i < |commands| {
          Obey(commands[i].0, commands[i].1);
          i := i + 1;
        }
        Pass();
        n := n - 1;
      }
      forall k | 0 <= k < |slots|
        ensures |slots[k].children| <= 1 && slots[k].forks <= Max(slots[k].s.maxRestarts, 0) + 1
      {
        BoundedForks(slots, procs, k);
      }
    }
  }

  /** A process belongs to one service at most. */
  lemma OnlyOne(slots: seq<Slot>, procs: set<int>, i: nat)
    requires Sound(slots, procs) && i < |slots| && slots[i].s.pid > 0
    ensures Tidy(slots[i], procs) && forall k | 0 <= k < |slots| && k != i :: slots[k].s.pid != slots[i].s.pid
  {
  }

  /** The record after the death, and at most one new child, only for a service that is still wanted. */
  ghost predicate Buried(before: Slot, after: Slot) {
    var t := DiedSlot(before);
    after == t || (Wanted(t.s) && 0 < after.s.pid && after == WithChild(t, after.s.pid))
  }

  lemma DiedRestarts(t: Slot, procs: set<int>)
    requires Tidy(t, procs) && t.s.pid > 0
    ensures Died(t.s).pid == -1 && (Died(t.s).active ==> Wanted(Died(t.s)) && t.forks <= Died(t.s).restarts)
    ensures !t.s.active ==> !Died(t.s).active
  {
  }

  lemma WantedRestarts(slots: seq<Slot>, procs: set<int>, i: nat)
    requires Sound(slots, procs) && i < |slots| && Wanted(slots[i].s)
    ensures slots[i].forks <= slots[i].s.restarts
  {
    assert Tidy(slots[i], procs);
  }

  /** The record changed as commanded; a child was forked only for a start or restart and only if there was none. */
  ghost predicate Obeyed(before: Slot, after: Slot, cmd: Command) {
    var t := CommandedSlot(before, cmd);
    after == t || (cmd != Stop && before.s.pid <= 0 < after.s.pid && after == WithChild(t, after.s.pid))
  }

  /** The first `n` services have followed the command, the others are as they were. */
  ghost predicate Following(was: seq<Slot>, slots: seq<Slot>, cmd: Command, name: string, n: nat) {
    && n <= |slots| == |was|
    && (forall k | 0 <= k < n :: if was[k].s.name != name then slots[k] == was[k] else Obeyed(was[k], slots[k], cmd))
    && (forall k | n <= k < |slots| :: slots[k] == was[k])
  }

  lemma NoneYet(was: seq<Slot>, cmd: Command, name: string)
    ensures Following(was, was, cmd, name, 0) && WantingBy(was, cmd, name, 0) == [] && EndedBy(was, cmd, name, 0) == []
  {
  }

  lemma OneMore(was: seq<Slot>, slots: seq<Slot>, cmd: Command, name: string, i: nat)
    requires i < |slots| && Following(was, slots, cmd, name, i)
    ensures |was| == |slots| && slots[i] == was[i]
    ensures var s := slots[i].s;
      && WantingBy(was, cmd, name, i + 1)
         == WantingBy(was, cmd, name, i) + (if s.name == name && cmd != Stop && s.pid <= 0 then [i] else [])
      && EndedBy(was, cmd, name, i + 1)
         == EndedBy(was, cmd, name, i) + (if s.name == name && cmd != Start && s.pid > 0 then [s.pid] else [])
  {
  }

  lemma OneFollows(was: seq<Slot>, before: seq<Slot>, after: seq<Slot>, cmd: Command, name: string, i: nat)
    requires i < |before| && Following(was, before, cmd, name, i) && |after| == |before|
    requires forall k | 0 <= k < |after| && k != i :: after[k] == before[k]
    requires if before[i].s.name == name then Obeyed(before[i], after[i], cmd) else after[i] == before[i]
    ensures Following(was, after, cmd, name, i + 1)
  {
  }

  lemma AllFollow(was: seq<Slot>, slots: seq<Slot>, cmd: Command, name: string)
    requires Following(was, slots, cmd, name, |slots|)
    ensures |slots| == |was|
    ensures forall k | 0 <= k < |slots| ::
      if was[k].s.name != name then slots[k] == was[k] else Obeyed(was[k], slots[k], cmd)
  {
  }

  lemma CommandedRestarts(t: Slot, cmd: Command)
    ensures Commanded(t.s, cmd).pid == t.s.pid && Commanded(t.s, cmd).name == t.s.name
    ensures cmd != Stop ==> Commanded(t.s, cmd).restarts == 0
  {
  }
}
