/** `write_text_atomic` and the cleaners of temporary files, as steps of any number of processes in
    several PID namespaces that stop at any moment and whose PIDs come back.

    A directory entry names an inode; a process that holds a file open writes to the inode, also
    after the name was removed or renamed. */
module AtomicWrite {
  import opened Collections

  type ProcId = nat
  type Target = string
  type Text = string
  type Inode = nat

  /** What the owner token names: a PID and the PID namespace that gives it a meaning. */
  datatype Owner = Owner(ns: nat, pid: nat)

  datatype Name = Final(target: Target) | Tmp(target: Target, owner: Owner)

  /** Where a call stands: before the unlink of a file with its name (only with a mode), before the
      open, after `written` characters, in the `finally` block. */
  datatype Job =
    | Unlinking(text: Text)
    | Opening(text: Text, exclusive: bool)
    | Writing(text: Text, inode: Inode, written: nat)
    | Finishing

  /** `doomed` are the names that this process probed and found dead, and has not unlinked yet. */
  datatype Proc = Proc(owner: Owner, jobs: map<Target, Job>, doomed: set<Name>)

  /** `procs` are the processes that run. */
  datatype State = State(dir: map<Name, Inode>, data: map<Inode, Text>, next: Inode, procs: map<ProcId, Proc>)

  datatype Event =
    | Spawn(id: ProcId, owner: Owner)
    | Crash(id: ProcId)
    | Begin(id: ProcId, target: Target, text: Text, withMode: bool)
    | StaleUnlink(id: ProcId, target: Target)
    | Open(id: ProcId, target: Target)
    | WriteSome(id: ProcId, target: Target, upTo: nat)
    | Rename(id: ProcId, target: Target)
    | Fails(id: ProcId, target: Target)
    | Finally(id: ProcId, target: Target, unlinked: bool)
    | Probe(id: ProcId, name: Name)
    | CleanUnlink(id: ProcId, name: Name)

  // ---------------------------------------------------------------- steps

  ghost predicate Alive(s: State, owner: Owner) {
    exists id :: id in s.procs && s.procs[id].owner == owner
  }

  predicate HasJob(s: State, id: ProcId, t: Target) { id in s.procs && t in s.procs[id].jobs }

  function JobOf(s: State, id: ProcId, t: Target): Job
    requires HasJob(s, id, t)
  {
    s.procs[id].jobs[t]
  }

  function TmpOf(s: State, id: ProcId, t: Target): Name
    requires id in s.procs
  {
    Tmp(t, s.procs[id].owner)
  }

  function SetJob(s: State, id: ProcId, t: Target, j: Job): State
    requires id in s.procs
  {
    s.(procs := s.procs[id := s.procs[id].(jobs := s.procs[id].jobs[t := j])])
  }

  function EndJob(s: State, id: ProcId, t: Target): State
    requires id in s.procs
  {
    s.(procs := s.procs[id := s.procs[id].(jobs := s.procs[id].jobs - {t})])
  }

  function Unlink(s: State, n: Name): State { s.(dir := s.dir - {n}) }

  /** The kernel gives a PID to one process of a namespace at a time; a process writes a path from
      one thread at a time; a probe answers "dead" only for a PID of its own namespace. */
  ghost predicate Enabled(s: State, e: Event) {
    match e
    case Spawn(id, owner) => id !in s.procs && !Alive(s, owner)
    case Crash(id) => id in s.procs
    case Begin(id, t, _, _) => id in s.procs && t !in s.procs[id].jobs
    case StaleUnlink(id, t) => HasJob(s, id, t) && JobOf(s, id, t).Unlinking?
    case Open(id, t) => HasJob(s, id, t) && JobOf(s, id, t).Opening? && (TmpOf(s, id, t) in s.dir ==> s.dir[TmpOf(s, id, t)] in s.data)
    case WriteSome(id, t, upTo) =>
      && HasJob(s, id, t) && JobOf(s, id, t).Writing? && JobOf(s, id, t).inode in s.data
      && JobOf(s, id, t).written <= upTo <= |JobOf(s, id, t).text|
    case Rename(id, t) => HasJob(s, id, t) && JobOf(s, id, t).Writing? && JobOf(s, id, t).written == |JobOf(s, id, t).text|
    case Fails(id, t) => HasJob(s, id, t)
    case Finally(id, t, _) => HasJob(s, id, t) && JobOf(s, id, t).Finishing?
    case Probe(id, n) => id in s.procs && n.Tmp? && n.owner.ns == s.procs[id].owner.ns && !Alive(s, n.owner)
    case CleanUnlink(id, n) => id in s.procs && n in s.procs[id].doomed
  }

  ghost function Next(s: State, e: Event): State
    requires Enabled(s, e)
  {
    match e
    case Spawn(id, owner) => s.(procs := s.procs[id := Proc(owner, map[], {})])
    case Crash(id) => s.(procs := s.procs - {id})
    case Begin(id, t, text, withMode) => SetJob(s, id, t, if withMode then Unlinking(text) else Opening(text, false))
    case StaleUnlink(id, t) => SetJob(Unlink(s, TmpOf(s, id, t)), id, t, Opening(JobOf(s, id, t).text, true))
    case Open(id, t) => OpenTmp(s, id, t)
    case WriteSome(id, t, upTo) =>
      var j := JobOf(s, id, t);
      SetJob(s.(data := s.data[j.inode := s.data[j.inode] + j.text[j.written..upTo]]), id, t, j.(written := upTo))
    case Rename(id, t) =>
      // os.replace of a name that is gone raises; the `finally` block follows either way
      SetJob(if TmpOf(s, id, t) in s.dir then Replace(s, TmpOf(s, id, t), Final(t)) else s, id, t, Finishing)
    case Fails(id, t) => SetJob(s, id, t, Finishing)
    case Finally(id, t, unlinked) => EndJob(if unlinked then Unlink(s, TmpOf(s, id, t)) else s, id, t)
    case Probe(id, n) => s.(procs := s.procs[id := s.procs[id].(doomed := s.procs[id].doomed + {n})])
    case CleanUnlink(id, n) =>
      Unlink(s, n).(procs := s.procs[id := s.procs[id].(doomed := s.procs[id].doomed - {n})])
  }

  /** O_EXCL refuses an existing name; the plain open cuts the existing file to nothing. */
  function OpenTmp(s: State, id: ProcId, t: Target): State
    requires HasJob(s, id, t) && JobOf(s, id, t).Opening?
  {
    var j, n := JobOf(s, id, t), TmpOf(s, id, t);
    if n in s.dir && j.exclusive then SetJob(s, id, t, Finishing)
    else if n in s.dir then SetJob(s.(data := s.data[s.dir[n] := ""]), id, t, Writing(j.text, s.dir[n], 0))
    else SetJob(s.(dir := s.dir[n := s.next], data := s.data[s.next := ""], next := s.next + 1), id, t, Writing(j.text, s.next, 0))
  }

  function Replace(s: State, from: Name, to: Name): State
    requires from in s.dir
  {
    s.(dir := (s.dir - {from})[to := s.dir[from]])
  }

  // ---------------------------------------------------------------- the invariant

  ghost predicate OwnersApart(s: State) {
    forall a, b | a in s.procs && b in s.procs && s.procs[a].owner == s.procs[b].owner :: a == b
  }

  ghost predicate NamesApart(s: State) {
    && (forall n | n in s.dir :: s.dir[n] in s.data && s.dir[n] < s.next)
    && (forall n, m | n in s.dir && m in s.dir && s.dir[n] == s.dir[m] :: n == m)
  }

  /** A writer owns the inode that it has open: it holds what was written so far, and no name but the
      writer's own leads to it. */
  ghost predicate WriterGood(s: State, id: ProcId, t: Target)
    requires HasJob(s, id, t)
  {
    var j := JobOf(s, id, t);
    j.Writing? ==>
      && j.inode in s.data && j.inode < s.next
      && j.written <= |j.text| && s.data[j.inode] == j.text[..j.written]
      && (forall n | n in s.dir && s.dir[n] == j.inode :: n == TmpOf(s, id, t))
      && (TmpOf(s, id, t) in s.dir ==> s.dir[TmpOf(s, id, t)] == j.inode)
  }

  ghost predicate Writes(s: State, id: ProcId, t: Target, i: Inode) {
    HasJob(s, id, t) && JobOf(s, id, t).Writing? && JobOf(s, id, t).inode == i
  }

  ghost predicate WritersApart(s: State) {
    forall a, t, b, u, i | Writes(s, a, t, i) && Writes(s, b, u, i) :: a == b && t == u
  }

  ghost predicate DoomedAreTmp(s: State) {
    forall id, n | id in s.procs && n in s.procs[id].doomed :: n.Tmp?
  }

  ghost predicate Inv(s: State) {
    && DoomedAreTmp(s) && OwnersApart(s) && NamesApart(s) && WritersApart(s)
    && (forall id, t | HasJob(s, id, t) :: WriterGood(s, id, t))
  }

  /** What a reader of a target gets. */
  function Seen(s: State, t: Target): Option<Text> {
    if Final(t) in s.dir && s.dir[Final(t)] in s.data then Some(s.data[s.dir[Final(t)]]) else None
  }

  // ---------------------------------------------------------------- each step keeps it

  /** A job whose `WriterGood` is untouched: same job, same owner, same names, same content. */
  ghost predicate SameWriter(s: State, s': State, id: ProcId, t: Target) {
    HasJob(s', id, t) && JobOf(s', id, t).Writing? ==>
      && HasJob(s, id, t) && JobOf(s', id, t) == JobOf(s, id, t) && s'.procs[id].owner == s.procs[id].owner
      && (JobOf(s, id, t).inode in s.data ==> JobOf(s, id, t).inode in s'.data && s'.data[JobOf(s, id, t).inode] == s.data[JobOf(s, id, t).inode])
  }

  /** Steps that open no file and write nothing: names can only go away. */
  lemma {:induction false} QuietStep(s: State, s': State)
    requires Inv(s)
    requires s'.dir.Keys <= s.dir.Keys && (forall n | n in s'.dir :: s'.dir[n] == s.dir[n])
    requires s'.data == s.data && s'.next == s.next && OwnersApart(s') && DoomedAreTmp(s')
    requires forall id, t :: SameWriter(s, s', id, t)
    ensures Inv(s')
  {
    forall id, t | HasJob(s', id, t) ensures WriterGood(s', id, t) {
      assert SameWriter(s, s', id, t);
      if JobOf(s', id, t).Writing? { assert WriterGood(s, id, t); }
    }
    forall a, t, b, u, i | Writes(s', a, t, i) && Writes(s', b, u, i) ensures a == b && t == u {
      assert SameWriter(s, s', a, t) && SameWriter(s, s', b, u);
      assert Writes(s, a, t, i) && Writes(s, b, u, i);
    }
  }

  lemma {:induction false} OpenKeepsInv(s: State, id: ProcId, t: Target)
    requires Inv(s) && Enabled(s, Open(id, t))
    ensures Inv(Next(s, Open(id, t)))
  {
    var s', n, j := Next(s, Open(id, t)), TmpOf(s, id, t), JobOf(s, id, t);
    if n in s.dir && j.exclusive {
      QuietStep(s, s');
    } else {
      var i := if n in s.dir then s.dir[n] else s.next;
      forall b, u ensures !Writes(s, b, u, i) {
        if HasJob(s, b, u) { assert WriterGood(s, b, u); }
      }
      OpenKeepsWriters(s, id, t, i);
    }
  }

  lemma {:induction false} OpenKeepsWriters(s: State, id: ProcId, t: Target, i: Inode)
    requires Inv(s) && Enabled(s, Open(id, t))
    requires var n := TmpOf(s, id, t); !(n in s.dir && JobOf(s, id, t).exclusive) && i == (if n in s.dir then s.dir[n] else s.next)
    requires forall b, u :: !Writes(s, b, u, i)
    ensures Inv(Next(s, Open(id, t)))
  {
    var s' := Next(s, Open(id, t));
    forall b, u | HasJob(s', b, u) ensures WriterGood(s', b, u) {
      if b != id || u != t {
        assert HasJob(s, b, u) && JobOf(s', b, u) == JobOf(s, b, u) && TmpOf(s', b, u) == TmpOf(s, b, u);
        assert WriterGood(s, b, u);
        assert !Writes(s, b, u, i);
      }
    }
    OpenKeepsApart(s, id, t, i);
  }

  lemma {:induction false} OpenKeepsApart(s: State, id: ProcId, t: Target, i: Inode)
    requires Inv(s) && Enabled(s, Open(id, t))
    requires var n := TmpOf(s, id, t); !(n in s.dir && JobOf(s, id, t).exclusive) && i == (if n in s.dir then s.dir[n] else s.next)
    requires forall b, u :: !Writes(s, b, u, i)
    ensures WritersApart(Next(s, Open(id, t)))
  {
    var s' := Next(s, Open(id, t));
    forall a, v, b, u, k | Writes(s', a, v, k) && Writes(s', b, u, k) ensures a == b && v == u {
      if a != id || v != t { assert Writes(s, a, v, k); }
      if b != id || u != t { assert Writes(s, b, u, k); }
    }
  }

  lemma {:induction false} WriteSomeKeepsInv(s: State, id: ProcId, t: Target, upTo: nat)
    requires Inv(s) && Enabled(s, WriteSome(id, t, upTo))
    ensures Inv(Next(s, WriteSome(id, t, upTo)))
  {
    var s', j := Next(s, WriteSome(id, t, upTo)), JobOf(s, id, t);
    assert WriterGood(s, id, t) && Writes(s, id, t, j.inode);
    assert j.text[..j.written] + j.text[j.written..upTo] == j.text[..upTo];
    forall b, u | HasJob(s', b, u) ensures WriterGood(s', b, u) {
      if b != id || u != t {
        assert HasJob(s, b, u) && JobOf(s', b, u) == JobOf(s, b, u) && TmpOf(s', b, u) == TmpOf(s, b, u);
        assert WriterGood(s, b, u);
        assert !Writes(s, b, u, j.inode);
      }
    }
    forall a, v, b, u, k | Writes(s', a, v, k) && Writes(s', b, u, k) ensures a == b && v == u {
      assert Writes(s, a, v, k) && Writes(s, b, u, k);
    }
  }

  lemma {:induction false} RenameKeepsInv(s: State, id: ProcId, t: Target)
    requires Inv(s) && Enabled(s, Rename(id, t))
    ensures Inv(Next(s, Rename(id, t)))
  {
    var s', n, j := Next(s, Rename(id, t)), TmpOf(s, id, t), JobOf(s, id, t);
    if n !in s.dir {
      QuietStep(s, s');
    } else {
      assert WriterGood(s, id, t) && Writes(s, id, t, j.inode);
      forall b, u | HasJob(s', b, u) ensures WriterGood(s', b, u) {
        if b != id || u != t {
          assert HasJob(s, b, u) && JobOf(s', b, u) == JobOf(s, b, u) && TmpOf(s', b, u) == TmpOf(s, b, u);
          assert WriterGood(s, b, u);
          assert !Writes(s, b, u, j.inode);
          assert TmpOf(s, b, u) != n;
        }
      }
      forall a, v, b, u, k | Writes(s', a, v, k) && Writes(s', b, u, k) ensures a == b && v == u {
        assert Writes(s, a, v, k) && Writes(s, b, u, k);
      }
    }
  }

  lemma {:induction false} SpawnKeepsInv(s: State, id: ProcId, owner: Owner)
    requires Inv(s) && Enabled(s, Spawn(id, owner))
    ensures Inv(Next(s, Spawn(id, owner)))
  {
    var s' := Next(s, Spawn(id, owner));
    forall a, b | a in s'.procs && b in s'.procs && s'.procs[a].owner == s'.procs[b].owner ensures a == b {
      if a != id { assert a in s.procs; }
      if b != id { assert b in s.procs; }
    }
    forall a, n | a in s'.procs && n in s'.procs[a].doomed ensures n.Tmp? { assert a in s.procs; }
    QuietStep(s, s');
  }

  lemma {:induction false} ProcStepKeepsInv(s: State, e: Event)
    requires Inv(s) && Enabled(s, e) && (e.Crash? || e.Probe? || e.CleanUnlink?)
    ensures Inv(Next(s, e))
  {
    match e
    case Crash(id) => QuietStep(s, Next(s, e));
    case Probe(id, n) => QuietStep(s, Next(s, e));
    case CleanUnlink(id, n) => QuietStep(s, Next(s, e));
  }

  lemma {:induction false} JobStepKeepsInv(s: State, e: Event)
    requires Inv(s) && Enabled(s, e) && (e.Begin? || e.StaleUnlink? || e.Fails? || e.Finally?)
    ensures Inv(Next(s, e))
  {
    match e
    case Begin(id, t, _, _) => QuietStep(s, Next(s, e));
    case StaleUnlink(id, t) => QuietStep(s, Next(s, e));
    case Fails(id, t) => QuietStep(s, Next(s, e));
    case Finally(id, t, _) => QuietStep(s, Next(s, e));
  }

  /** Every step keeps the invariant. */
  lemma {:induction false} StepKeepsInv(s: State, e: Event)
    requires Inv(s) && Enabled(s, e)
    ensures Inv(Next(s, e))
  {
    match e
    case Open(id, t) => OpenKeepsInv(s, id, t);
    case WriteSome(id, t, upTo) => WriteSomeKeepsInv(s, id, t, upTo);
    case Rename(id, t) => RenameKeepsInv(s, id, t);
    case Spawn(id, owner) => SpawnKeepsInv(s, id, owner);
    case Crash(_) => ProcStepKeepsInv(s, e);
    case Probe(_, _) => ProcStepKeepsInv(s, e);
    case CleanUnlink(_, _) => ProcStepKeepsInv(s, e);
    case _ => JobStepKeepsInv(s, e);
  }

  // ---------------------------------------------------------------- what readers see

  /** The one event that changes what a reader sees. */
  predicate Commits(s: State, e: Event) {
    && e.Rename? && HasJob(s, e.id, e.target) && JobOf(s, e.id, e.target).Writing?
    && JobOf(s, e.id, e.target).written == |JobOf(s, e.id, e.target).text|
    && TmpOf(s, e.id, e.target) in s.dir
  }

  /** Refinement of an atomic register per target: a step changes nothing that a reader sees, or it
      is the rename of a writer that wrote all of its text, and its target then holds that text. */
  lemma {:induction false} StepRefinesRegister(s: State, e: Event, t: Target)
    requires Inv(s) && Enabled(s, e)
    ensures Seen(Next(s, e), t) == if Commits(s, e) && e.target == t then Some(JobOf(s, e.id, t).text) else Seen(s, t)
  {
    match e
    case Rename(id, u) =>
      assert WriterGood(s, id, u);
      assert JobOf(s, id, u).text[..JobOf(s, id, u).written] == JobOf(s, id, u).text;
    case WriteSome(id, u, _) => assert WriterGood(s, id, u);
    case CleanUnlink(id, n) => assert n.Tmp?;
    case _ =>
  }

  // ---------------------------------------------------------------- whole runs

  ghost predicate IsRun(ss: seq<State>, es: seq<Event>) {
    && |ss| == |es| + 1 && ss[0].procs == map[] && NamesApart(ss[0])
    && forall i | 0 <= i < |es| :: Enabled(ss[i], es[i]) && ss[i + 1] == Next(ss[i], es[i])
  }

  lemma {:induction false} RunKeepsInv(ss: seq<State>, es: seq<Event>, n: nat)
    requires IsRun(ss, es) && n < |ss|
    ensures Inv(ss[n])
  {
    if n > 0 {
      RunKeepsInv(ss, es, n - 1);
      StepKeepsInv(ss[n - 1], es[n - 1]);
    }
  }

  /** Some writer passed this text for this target. */
  ghost predicate Passed(es: seq<Event>, n: nat, t: Target, text: Text) {
    exists i :: 0 <= i < n <= |es| && es[i].Begin? && es[i].target == t && es[i].text == text
  }

  lemma {:induction false} JobTextsArePassed(ss: seq<State>, es: seq<Event>, n: nat, id: ProcId, t: Target)
    requires IsRun(ss, es) && n < |ss| && HasJob(ss[n], id, t) && !JobOf(ss[n], id, t).Finishing?
    ensures Passed(es, n, t, JobOf(ss[n], id, t).text)
  {
    if n > 0 {
      var s, e := ss[n - 1], es[n - 1];
      if e.Begin? && e.id == id && e.target == t {
      } else {
        JobTextsArePassed(ss, es, n - 1, id, t);
      }
    }
  }

  /** Over every run a target that exists goes on to exist, and it holds its initial text or one
      complete text that some writer passed for it. */
  lemma {:induction false} TargetsHoldCompleteTexts(ss: seq<State>, es: seq<Event>, n: nat, t: Target)
    requires IsRun(ss, es) && n < |ss|
    ensures Seen(ss[0], t).Some? ==> Seen(ss[n], t).Some?
    ensures Seen(ss[n], t) == Seen(ss[0], t) || (Seen(ss[n], t).Some? && Passed(es, n, t, Seen(ss[n], t).value))
  {
    if n > 0 {
      TargetsHoldCompleteTexts(ss, es, n - 1, t);
      RunKeepsInv(ss, es, n - 1);
      StepRefinesRegister(ss[n - 1], es[n - 1], t);
      if Commits(ss[n - 1], es[n - 1]) && es[n - 1].target == t {
        JobTextsArePassed(ss, es, n - 1, es[n - 1].id, t);
      }
    }
  }

  // ---------------------------------------------------------------- cleaners and live writers

  /** A cleaner is about to unlink a name whose owner runs. */
  ghost predicate LiveNameDoomed(s: State) {
    exists id, n :: id in s.procs && n in s.procs[id].doomed && n.Tmp? && Alive(s, n.owner)
  }

  /** A PID came back between the liveness probe of a cleaner and its unlink. */
  ghost predicate Reissued(s: State, e: Event) {
    e.Spawn? && exists id, n :: id in s.procs && n in s.procs[id].doomed && n.Tmp? && n.owner == e.owner
  }

  lemma {:induction false} DoomedStep(s: State, e: Event)
    requires Enabled(s, e) && !LiveNameDoomed(s)
    ensures LiveNameDoomed(Next(s, e)) <==> Reissued(s, e)
  {
    var s' := Next(s, e);
    assert OwnersOnlyAdded(s, e);
    if Reissued(s, e) {
      var id, n :| id in s.procs && n in s.procs[id].doomed && n.Tmp? && n.owner == e.owner;
      assert s'.procs[e.id].owner == e.owner;
      assert id in s'.procs && n in s'.procs[id].doomed && Alive(s', n.owner);
    }
    if LiveNameDoomed(s') {
      var id, n :| id in s'.procs && n in s'.procs[id].doomed && n.Tmp? && Alive(s', n.owner);
      DoomedWas(s, e, id, n);
    }
  }

  ghost predicate OwnersOnlyAdded(s: State, e: Event)
    requires Enabled(s, e)
  {
    forall o | Alive(Next(s, e), o) :: Alive(s, o) || (e.Spawn? && o == e.owner)
  }

  lemma {:induction false} DoomedWas(s: State, e: Event, id: ProcId, n: Name)
    requires Enabled(s, e) && !LiveNameDoomed(s)
    requires id in Next(s, e).procs && n in Next(s, e).procs[id].doomed && n.Tmp? && Alive(Next(s, e), n.owner)
    ensures Reissued(s, e)
  {
    assert OwnersOnlyAdded(s, e);
    assert e != Probe(id, n);
    assert id in s.procs && n in s.procs[id].doomed;
    assert !Alive(s, n.owner);
  }

  /** A run keeps every cleaner away from the names of live writers exactly when no PID comes back
      between a probe and its unlink. */
  lemma {:induction false} CleanersSpareTheLivingExactly(ss: seq<State>, es: seq<Event>)
    requires IsRun(ss, es)
    ensures (forall n | 0 <= n < |ss| :: !LiveNameDoomed(ss[n])) <==> (forall n | 0 <= n < |es| :: !Reissued(ss[n], es[n]))
  {
    if forall n | 0 <= n < |es| :: !Reissued(ss[n], es[n]) {
      forall n | 0 <= n < |ss| ensures !LiveNameDoomed(ss[n]) { NoneDoomedUntil(ss, es, n); }
    }
    if forall n | 0 <= n < |ss| :: !LiveNameDoomed(ss[n]) {
      forall n | 0 <= n < |es| ensures !Reissued(ss[n], es[n]) {
        assert !LiveNameDoomed(ss[n]) && !LiveNameDoomed(ss[n + 1]);
        DoomedStep(ss[n], es[n]);
      }
    }
  }

  lemma {:induction false} NoneDoomedUntil(ss: seq<State>, es: seq<Event>, n: nat)
    requires IsRun(ss, es) && n < |ss|
    requires forall i | 0 <= i < |es| :: !Reissued(ss[i], es[i])
    ensures !LiveNameDoomed(ss[n])
  {
    if n > 0 {
      NoneDoomedUntil(ss, es, n - 1);
      DoomedStep(ss[n - 1], es[n - 1]);
    }
  }

  /** Each writer finds its temporary file under its name, and an exclusive open finds none there. */
  ghost predicate FilesInPlace(s: State) {
    forall id, t | HasJob(s, id, t) :: FileInPlace(s, id, t)
  }

  ghost predicate FileInPlace(s: State, id: ProcId, t: Target)
    requires HasJob(s, id, t)
  {
    && (JobOf(s, id, t).Writing? ==> TmpOf(s, id, t) in s.dir)
    && (JobOf(s, id, t).Opening? && JobOf(s, id, t).exclusive ==> TmpOf(s, id, t) !in s.dir)
  }

  lemma {:induction false} StepKeepsFiles(s: State, e: Event)
    requires Inv(s) && Enabled(s, e) && FilesInPlace(s) && !LiveNameDoomed(s)
    ensures FilesInPlace(Next(s, e))
  {
    forall id, t | HasJob(Next(s, e), id, t) ensures FileInPlace(Next(s, e), id, t) {
      StepKeepsFile(s, e, id, t);
    }
  }

  lemma {:induction false} StepKeepsFile(s: State, e: Event, id: ProcId, t: Target)
    requires Inv(s) && Enabled(s, e) && FilesInPlace(s) && !LiveNameDoomed(s) && HasJob(Next(s, e), id, t)
    ensures FileInPlace(Next(s, e), id, t)
  {
    if HasJob(s, id, t) { assert FileInPlace(s, id, t); }
    if e.CleanUnlink? {
      CleanUnlinkKeepsFile(s, e.id, e.name, id, t);
    } else if e.Spawn? || e.Crash? || e.Probe? {
    } else if e.id != id {
      OtherProcKeepsFile(s, e, id, t);
    }
  }

  lemma {:induction false} CleanUnlinkKeepsFile(s: State, c: ProcId, n: Name, id: ProcId, t: Target)
    requires Inv(s) && Enabled(s, CleanUnlink(c, n)) && !LiveNameDoomed(s) && HasJob(s, id, t) && FileInPlace(s, id, t)
    ensures FileInPlace(Next(s, CleanUnlink(c, n)), id, t)
  {
    assert n.Tmp? && Alive(s, s.procs[id].owner);
  }

  /** A step on a job of another process touches the names of that process and of the targets. */
  lemma {:induction false} OtherProcKeepsFile(s: State, e: Event, id: ProcId, t: Target)
    requires Inv(s) && Enabled(s, e) && HasJob(s, id, t) && FileInPlace(s, id, t)
    requires e.Begin? || e.StaleUnlink? || e.Open? || e.WriteSome? || e.Rename? || e.Fails? || e.Finally?
    requires e.id != id
    ensures FileInPlace(Next(s, e), id, t)
  {
    assert s.procs[e.id].owner != s.procs[id].owner;
  }

  /** Without such a reissue, over every run: every rename of a finished writer commits its text, no
      exclusive open fails, and each unlink of a cleaner hits a name whose owner does not run. */
  lemma {:induction false} LiveWritersAreUndisturbed(ss: seq<State>, es: seq<Event>, n: nat)
    requires IsRun(ss, es) && n < |ss|
    requires forall i | 0 <= i < |es| :: !Reissued(ss[i], es[i])
    ensures FilesInPlace(ss[n])
    ensures n < |es| && es[n].Rename? ==> Commits(ss[n], es[n])
    ensures n < |es| && es[n].Open? ==> JobOf(ss[n + 1], es[n].id, es[n].target).Writing?
    ensures n < |es| && es[n].CleanUnlink? ==> es[n].name.Tmp? && !Alive(ss[n], es[n].name.owner)
  {
    if n > 0 {
      LiveWritersAreUndisturbed(ss, es, n - 1);
      RunKeepsInv(ss, es, n - 1);
      NoneDoomedUntil(ss, es, n - 1);
      StepKeepsFiles(ss[n - 1], es[n - 1]);
    }
    RunKeepsInv(ss, es, n);
    NoneDoomedUntil(ss, es, n);
    if n < |es| {
      var s, e := ss[n], es[n];
      assert Enabled(s, e) && ss[n + 1] == Next(s, e);
      if e.Rename? || e.Open? { assert FileInPlace(s, e.id, e.target); }
      if e.CleanUnlink? { assert e.name in s.procs[e.id].doomed && e.name.Tmp?; }
    }
  }

  // ---------------------------------------------------------------- a PID that comes back too early

  ghost predicate LeadsTo(s: State, e: Event, s': State) { Enabled(s, e) && Next(s, e) == s' }

  const CLEANER := Owner(1, 5)
  const WRITER := Owner(1, 7)
  const LEFT := Tmp("a", WRITER)

  /** A directory with at most the left file, whose content is `text`; the cleaner's doomed names;
      the writer's job, once it runs. */
  function Scene(left: bool, text: Text, doomed: set<Name>, jobs: map<Target, Job>): State {
    State(if left then map[LEFT := 0] else map[], map[0 := text], 1, map[0 := Proc(CLEANER, map[], doomed), 1 := Proc(WRITER, jobs, {})])
  }

  lemma {:induction false} SceneStarts() returns (ss: seq<State>, es: seq<Event>)
    ensures IsRun(ss, es) && |es| == 3 && ss[3] == Scene(true, "x", {LEFT}, map[])
    ensures Reissued(ss[2], es[2]) && forall t :: Seen(ss[0], t) == None
  {
    var dir: map<Name, Inode> := map[LEFT := 0];
    var s0 := State(dir, map[0 := "x"], 1, map[]);
    var s1 := State(dir, map[0 := "x"], 1, map[0 := Proc(CLEANER, map[], {})]);
    var s2 := State(dir, map[0 := "x"], 1, map[0 := Proc(CLEANER, map[], {LEFT})]);
    es := [Spawn(0, CLEANER), Probe(0, LEFT), Spawn(1, WRITER)];
    ss := [s0, s1, s2, Scene(true, "x", {LEFT}, map[])];
    assert LeadsTo(s0, es[0], s1);
    assert s1.procs[0].doomed + {LEFT} == {LEFT};
    assert s1.procs[0 := Proc(CLEANER, map[], {LEFT})] == s2.procs;
    assert LeadsTo(s1, es[1], s2);
    assert s2.procs[1 := Proc(WRITER, map[], {})] == ss[3].procs;
    assert LeadsTo(s2, es[2], ss[3]);
  }

  lemma {:induction false} SceneJob(left: bool, text: Text, doomed: set<Name>, jobs: map<Target, Job>, j: Job)
    ensures SetJob(Scene(left, text, doomed, jobs), 1, "a", j) == Scene(left, text, doomed, jobs["a" := j])
  {
    var s := Scene(left, text, doomed, jobs);
    assert s.procs[1 := Proc(WRITER, jobs["a" := j], {})] == Scene(left, text, doomed, jobs["a" := j]).procs;
  }

  lemma {:induction false} SceneWrites()
    ensures LeadsTo(Scene(true, "x", {LEFT}, map[]), Begin(1, "a", "y", false), Scene(true, "x", {LEFT}, map["a" := Opening("y", false)]))
    ensures LeadsTo(Scene(true, "x", {LEFT}, map["a" := Opening("y", false)]), Open(1, "a"), Scene(true, "", {LEFT}, map["a" := Writing("y", 0, 0)]))
    ensures LeadsTo(Scene(true, "", {LEFT}, map["a" := Writing("y", 0, 0)]), WriteSome(1, "a", 1), Scene(true, "y", {LEFT}, map["a" := Writing("y", 0, 1)]))
  {
    var none: map<Target, Job> := map[];
    SceneJob(true, "x", {LEFT}, none, Opening("y", false));
    assert none["a" := Opening("y", false)] == map["a" := Opening("y", false)];
    SceneJob(true, "", {LEFT}, map["a" := Opening("y", false)], Writing("y", 0, 0));
    assert map["a" := Opening("y", false)]["a" := Writing("y", 0, 0)] == map["a" := Writing("y", 0, 0)];
    assert Scene(true, "x", {LEFT}, map["a" := Opening("y", false)]).data[0 := ""] == map[0 := ""];
    SceneJob(true, "y", {LEFT}, map["a" := Writing("y", 0, 0)], Writing("y", 0, 1));
    assert map["a" := Writing("y", 0, 0)]["a" := Writing("y", 0, 1)] == map["a" := Writing("y", 0, 1)];
    assert "" + "y"[0..1] == "y";
    assert Scene(true, "", {LEFT}, map["a" := Writing("y", 0, 0)]).data[0 := "y"] == map[0 := "y"];
  }

  lemma {:induction false} SceneLoses()
    ensures LeadsTo(Scene(true, "y", {LEFT}, map["a" := Writing("y", 0, 1)]), CleanUnlink(0, LEFT), Scene(false, "y", {}, map["a" := Writing("y", 0, 1)]))
    ensures LeadsTo(Scene(false, "y", {}, map["a" := Writing("y", 0, 1)]), Rename(1, "a"), Scene(false, "y", {}, map["a" := Finishing]))
  {
    var s := Scene(true, "y", {LEFT}, map["a" := Writing("y", 0, 1)]);
    assert s.dir - {LEFT} == map[];
    assert s.procs[0].doomed - {LEFT} == {};
    assert s.procs[0 := Proc(CLEANER, map[], {})] == Scene(false, "y", {}, map["a" := Writing("y", 0, 1)]).procs;
    SceneJob(false, "y", {}, map["a" := Writing("y", 0, 1)], Finishing);
    assert map["a" := Writing("y", 0, 1)]["a" := Finishing] == map["a" := Finishing];
  }

  lemma {:induction false} RunGrows(ss: seq<State>, es: seq<Event>, e: Event, s: State) returns (ss': seq<State>, es': seq<Event>)
    requires IsRun(ss, es) && LeadsTo(ss[|es|], e, s)
    ensures IsRun(ss', es') && ss' == ss + [s] && es' == es + [e]
  {
    ss', es' := ss + [s], es + [e];
    forall i | 0 <= i < |es'| ensures Enabled(ss'[i], es'[i]) && ss'[i + 1] == Next(ss'[i], es'[i]) {
      if i < |es| { assert ss'[i] == ss[i] && ss'[i + 1] == ss[i + 1] && es'[i] == es[i]; }
    }
  }

  lemma {:induction false} SceneMiddle() returns (ss: seq<State>, es: seq<Event>)
    ensures IsRun(ss, es) && |es| == 6 && ss[6] == Scene(true, "y", {LEFT}, map["a" := Writing("y", 0, 1)])
    ensures Reissued(ss[2], es[2]) && forall t :: Seen(ss[0], t) == None
  {
    var ss0, es0 := SceneStarts();
    SceneWrites();
    var ss1, es1 := RunGrows(ss0, es0, Begin(1, "a", "y", false), Scene(true, "x", {LEFT}, map["a" := Opening("y", false)]));
    var ss2, es2 := RunGrows(ss1, es1, Open(1, "a"), Scene(true, "", {LEFT}, map["a" := Writing("y", 0, 0)]));
    ss, es := RunGrows(ss2, es2, WriteSome(1, "a", 1), Scene(true, "y", {LEFT}, map["a" := Writing("y", 0, 1)]));
    assert ss[0] == ss0[0] && ss[2] == ss0[2] && es[2] == es0[2];
  }

  /** Process 0 cleans; a dead process left the file of PID 7; process 1 gets PID 7 after the probe.
      Its rename then finds no file: the write is lost, and the target is as before. */
  lemma {:induction false} EarlyReissueLosesAWrite() returns (ss: seq<State>, es: seq<Event>)
    ensures IsRun(ss, es) && |es| == 8
    ensures Reissued(ss[2], es[2]) && es[6] == CleanUnlink(0, LEFT) && Alive(ss[6], LEFT.owner)
    ensures es[7] == Rename(1, "a") && !Commits(ss[7], es[7])
    ensures forall t :: Seen(ss[8], t) == Seen(ss[0], t)
  {
    var ss0, es0 := SceneMiddle();
    SceneLoses();
    var ss1, es1 := RunGrows(ss0, es0, CleanUnlink(0, LEFT), Scene(false, "y", {}, map["a" := Writing("y", 0, 1)]));
    ss, es := RunGrows(ss1, es1, Rename(1, "a"), Scene(false, "y", {}, map["a" := Finishing]));
    assert ss[0] == ss0[0] && ss[2] == ss0[2] && es[2] == es0[2] && ss[6] == ss0[6];
    assert ss0[6].procs[1].owner == WRITER;
  }
}
