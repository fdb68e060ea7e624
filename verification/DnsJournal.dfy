/**
 * The DNS restore journal and its callers, with a crash possible at every primitive action.
 *
 * A crash kills the process; the file system and the resolver configuration of the links survive
 * it. A file write that is cut short leaves arbitrary contents, a rename is atomic, and a
 * `resolvectl` command that fails or is interrupted may or may not have taken effect.
 */
module DnsJournal {
  import opened Prelude
  import opened ResolverText

  datatype Record = Record(link: string, servers: seq<string>)

  /** What a file holds, as `read` sees it. */
  datatype Content = Complete(record: Record) | Unreadable

  /** `index` is the number `resolvectl` prints in front of a link name. */
  datatype Host = Host(
    journal: Option<Content>, tmp: Option<Content>, links: map<string, seq<string>>, index: string)

  /** Where the daemon is inside `applyDnsProvider` or `restoreDns`; `exit` marks the restore of a shutdown. */
  datatype Task =
    | Down
    | Idle
    | Checking(link: string, servers: seq<string>)
    | Querying(link: string, servers: seq<string>)
    | OpeningTmp(link: string, servers: seq<string>, record: Record)
    | WritingTmp(link: string, servers: seq<string>, record: Record)
    | Renaming(link: string, servers: seq<string>, record: Record)
    | Switching(link: string, servers: seq<string>)
    | Restoring(exit: bool)
    | PuttingBack(record: Record, exit: bool)
    | Deleting(exit: bool)

  /** `persistent` is false when the daemon has no state directory, hence no journal path. */
  datatype State = State(persistent: bool, host: Host, task: Task)

  datatype Action =
    | BeginApply(link: string, servers: seq<string>)
    | Stop
    | Boot
    | Proceed
    | Fail(effect: bool, torn: Content)
    | Crash(effect: bool, torn: Content)

  function ReadJournal(persistent: bool, h: Host): Option<Record> {
    if persistent && h.journal.Some? && h.journal.value.Complete? then Some(h.journal.value.record) else None
  }

  function Pending(s: State): Option<Record> { ReadJournal(s.persistent, s.host) }

  /** `resolvectl dns` or, for an empty list, `resolvectl revert`. */
  function SetLink(h: Host, link: string, servers: seq<string>): Host {
    if link in h.links then h.(links := h.links[link := servers]) else h
  }

  /** The host once the current primitive action is done. */
  function Effect(s: State): Host {
    match s.task
    case OpeningTmp(_, _, _) => if s.persistent then s.host.(tmp := Some(Unreadable)) else s.host
    case WritingTmp(_, _, r) => s.host.(tmp := Some(Complete(r)))
    case Renaming(_, _, _) => s.host.(journal := s.host.tmp, tmp := None)
    case Switching(l, sv) => SetLink(s.host, l, sv)
    case PuttingBack(r, _) => SetLink(s.host, r.link, r.servers)
    case Deleting(_) => if s.persistent then s.host.(journal := None) else s.host
    case _ => s.host
  }

  /** The host when the current primitive action is cut short. */
  function Interrupted(s: State, effect: bool, torn: Content): Host {
    if s.task.WritingTmp? then s.host.(tmp := Some(torn)) else if effect then Effect(s) else s.host
  }

  function Finished(exit: bool): Task { if exit then Down else Idle }

  /** What follows the current primitive action when it succeeds. */
  function Next(s: State): Task {
    match s.task
    case Checking(l, sv) => if Pending(s).Some? then Switching(l, sv) else Querying(l, sv)
    case Querying(l, sv) =>
      if l in s.host.links
      then OpeningTmp(l, sv, Record(l, Parse(Print(s.host.index, l, s.host.links[l]))))
      else Idle
    case OpeningTmp(l, sv, r) => if s.persistent then WritingTmp(l, sv, r) else Switching(l, sv)
    case WritingTmp(l, sv, r) => Renaming(l, sv, r)
    case Renaming(l, sv, _) => Switching(l, sv)
    case Switching(_, _) => Idle
    case Restoring(exit) => if Pending(s).Some? then PuttingBack(Pending(s).value, exit) else Finished(exit)
    case PuttingBack(r, exit) => if r.link in s.host.links then Deleting(exit) else Finished(exit)
    case Deleting(exit) => Finished(exit)
    case _ => s.task
  }

  function AfterFailure(t: Task): Task {
    match t
    case Down => Down
    case Restoring(exit) => Finished(exit)
    case PuttingBack(_, exit) => Finished(exit)
    case Deleting(exit) => Finished(exit)
    case _ => Idle
  }

  function Step(s: State, a: Action): State {
    match a
    case BeginApply(l, sv) => if s.task.Idle? && sv != [] then s.(task := Checking(l, sv)) else s
    case Stop => if s.task.Idle? then s.(task := Restoring(true)) else s
    case Boot => if s.task.Down? then s.(task := Restoring(false)) else s
    case Proceed => State(s.persistent, Effect(s), Next(s))
    case Fail(effect, torn) => State(s.persistent, Interrupted(s, effect, torn), AfterFailure(s.task))
    case Crash(effect, torn) => State(s.persistent, Interrupted(s, effect, torn), Down)
  }

  function Run(s: State, actions: seq<Action>): State
    decreases actions
  {
    if actions == [] then s else Run(Step(s, actions[0]), actions[1..])
  }

  // ---------------------------------------------------------------- the invariant

  type Original = map<string, seq<string>>

  /** What `resolvectl` can print: link names without colon or line break, and lists of words. */
  ghost predicate Printable(orig: Original, index: string) {
    IsLinkName(index) && forall l :: l in orig ==> IsLinkName(l) && AreWords(orig[l])
  }

  /** The host after a restore runs through without faults. */
  function Restored(persistent: bool, h: Host): Host {
    match ReadJournal(persistent, h)
    case None => h
    case Some(r) => if r.link in h.links then SetLink(h, r.link, r.servers).(journal := None) else h
  }

  /** The lists a restore that runs through would leave. */
  function Goal(h: Host): map<string, seq<string>> { Restored(true, h).links }

  /** `sv` is the original list of `l` or, once the link was to be changed, what the pattern accepts of it. */
  ghost predicate Kept(orig: Original, begun: set<string>, l: string, sv: seq<string>)
    requires l in orig
  {
    sv == orig[l] || (l in begun && sv == Accepted(orig[l]))
  }

  /**
   * A restore would leave every link with what is kept of its original, and a record on file holds
   * exactly the accepted part of the original list of a link that was to be changed.
   */
  ghost predicate Recoverable(h: Host, orig: Original, begun: set<string>) {
    && h.links.Keys == orig.Keys && Goal(h).Keys == orig.Keys
    && (forall l :: l in orig ==> Kept(orig, begun, l, Goal(h)[l]))
    && match ReadJournal(true, h)
       case None => true
       case Some(r) => r.link in orig && r.link in begun && r.servers == Accepted(orig[r.link])
  }

  ghost predicate Capturing(s: State, begun: set<string>, l: string, r: Record) {
    Pending(s).None? && l in begun && l in s.host.links && r == Record(l, Accepted(s.host.links[l]))
  }

  ghost predicate TaskConsistent(s: State, begun: set<string>) {
    match s.task
    case Checking(l, _) => l in begun && (Pending(s).Some? ==> Pending(s).value.link == l)
    case Querying(l, _) => l in begun && Pending(s).None?
    case OpeningTmp(l, _, r) => Capturing(s, begun, l, r)
    case WritingTmp(l, _, r) => Capturing(s, begun, l, r)
    case Renaming(l, _, r) => Capturing(s, begun, l, r) && s.host.tmp == Some(Complete(r))
    case Switching(l, _) => Pending(s).Some? && Pending(s).value.link == l
    case PuttingBack(r, _) => Pending(s) == Some(r)
    case Deleting(_) => s.host.links == Goal(s.host)
    case _ => true
  }

  /** `begun` holds the links the daemon was asked to change so far. */
  ghost predicate Safe(s: State, orig: Original, begun: set<string>) {
    && s.persistent && Printable(orig, s.host.index)
    && Recoverable(s.host, orig, begun) && TaskConsistent(s, begun)
  }

  /** One link per episode: while a record is on file, only its link is changed. */
  predicate Disciplined(s: State, a: Action) {
    a.BeginApply? && Pending(s).Some? ==> Pending(s).value.link == a.link
  }

  ghost predicate DisciplinedRun(s: State, actions: seq<Action>)
    decreases actions
  {
    actions == [] || (Disciplined(s, actions[0]) && DisciplinedRun(Step(s, actions[0]), actions[1..]))
  }

  /** The links the actions ask to change. */
  function Begun(actions: seq<Action>): set<string> {
    set a | a in actions && a.BeginApply? :: a.link
  }

  lemma AcceptedOfKept(orig: Original, begun: set<string>, l: string, sv: seq<string>)
    requires l in orig && Kept(orig, begun, l, sv) && AreWords(orig[l])
    ensures Accepted(sv) == Accepted(orig[l]) && AreWords(sv)
  {
    AcceptedAreResolvers(orig[l]);
    AcceptedShorter(Accepted(orig[l]));
    ResolversAreWords(Accepted(orig[l]));
  }

  /** With no record on file, the capture of a link keeps exactly what the pattern accepts of its original list. */
  lemma CaptureIsExact(h: Host, l: string, orig: Original, begun: set<string>)
    requires Printable(orig, h.index) && Recoverable(h, orig, begun) && ReadJournal(true, h).None? && l in h.links
    ensures Parse(Print(h.index, l, h.links[l])) == Accepted(h.links[l]) == Accepted(orig[l])
    ensures AreResolvers(orig[l]) ==> Parse(Print(h.index, l, h.links[l])) == orig[l]
  {
    assert Kept(orig, begun, l, Goal(h)[l]);
    AcceptedOfKept(orig, begun, l, h.links[l]);
    ParsePrint(h.index, l, h.links[l]);
    AcceptedShorter(orig[l]);
  }

  /** Putting the record in place makes the accepted part of its link's list the goal. */
  lemma RenameRecoverable(s: State, orig: Original, begun: set<string>)
    requires Safe(s, orig, begun) && s.task.Renaming?
    ensures Recoverable(Effect(s), orig, begun)
  {
    var l, h' := s.task.link, Effect(s);
    assert Goal(s.host) == s.host.links;
    assert Kept(orig, begun, l, s.host.links[l]);
    AcceptedOfKept(orig, begun, l, s.host.links[l]);
    assert Goal(h') == s.host.links[l := Accepted(orig[l])];
  }

  lemma EffectRecoverable(s: State, orig: Original, begun: set<string>)
    requires Safe(s, orig, begun)
    ensures Recoverable(Effect(s), orig, begun) && Effect(s).index == s.host.index
    ensures s.task.PuttingBack? ==> Effect(s).links == Goal(Effect(s))
  {
    match s.task
    case Renaming(_, _, _) => RenameRecoverable(s, orig, begun);
    case Switching(l, sv) => assert Goal(Effect(s)) == Goal(s.host);
    case PuttingBack(r, _) => assert Goal(Effect(s)) == Goal(s.host) == Effect(s).links;
    case Deleting(_) => assert Goal(Effect(s)) == s.host.links;
    case _ => assert Goal(Effect(s)) == Goal(s.host);
  }

  lemma ProceedSafe(s: State, orig: Original, begun: set<string>)
    requires Safe(s, orig, begun)
    ensures Safe(Step(s, Proceed), orig, begun)
  {
    EffectRecoverable(s, orig, begun);
    if s.task.Querying? && s.task.link in s.host.links {
      CaptureIsExact(s.host, s.task.link, orig, begun);
    }
  }

  lemma BegunGrows(s: State, orig: Original, begun: set<string>, more: set<string>)
    requires Safe(s, orig, begun) && begun <= more
    ensures Safe(s, orig, more)
  {
    forall l | l in orig ensures Kept(orig, more, l, Goal(s.host)[l]) {
      assert Kept(orig, begun, l, Goal(s.host)[l]);
    }
  }

  lemma StepSafe(s: State, a: Action, orig: Original, begun: set<string>)
    requires Safe(s, orig, begun) && Disciplined(s, a)
    ensures Safe(Step(s, a), orig, begun + Begun([a]))
  {
    BegunGrows(s, orig, begun, begun + Begun([a]));
    match a
    case Proceed => ProceedSafe(s, orig, begun + Begun([a]));
    case Fail(_, _) => EffectRecoverable(s, orig, begun + Begun([a]));
    case Crash(_, _) => EffectRecoverable(s, orig, begun + Begun([a]));
    case BeginApply(l, _) => assert a in [a] && l in Begun([a]);
    case _ =>
  }

  /** Safety over whole runs: faults and crashes anywhere never lose more than the tokens the pattern rejects. */
  lemma {:induction false} RunSafe(s: State, actions: seq<Action>, orig: Original, begun: set<string>)
    requires Safe(s, orig, begun) && DisciplinedRun(s, actions)
    ensures Safe(Run(s, actions), orig, begun + Begun(actions))
    decreases actions
  {
    if actions == [] {
      assert begun + Begun(actions) == begun;
    } else {
      StepSafe(s, actions[0], orig, begun);
      RunSafe(Step(s, actions[0]), actions[1..], orig, begun + Begun([actions[0]]));
      assert actions == [actions[0]] + actions[1..];
      assert begun + Begun([actions[0]]) + Begun(actions[1..]) == begun + Begun(actions);
    }
  }

  /** A freshly installed daemon: the links as found, no usable journal, any leftovers. */
  ghost predicate Fresh(s: State, orig: Original) {
    && s.persistent && s.task.Down? && ReadJournal(true, s.host).None?
    && s.host.links == orig && Printable(orig, s.host.index)
  }

  /**
   * In every reachable state a link that differs from its original was to be changed and either has
   * a complete journal holding exactly what the pattern accepts of the original, or is back at that
   * part. If the pattern accepts the original, the journal holds exactly the original.
   */
  lemma ChangedLinkIsJournaled(s: State, actions: seq<Action>, orig: Original, link: string)
    requires Fresh(s, orig) && DisciplinedRun(s, actions) && link in orig
    ensures var h := Run(s, actions).host;
            && link in h.links
            && (h.links[link] != orig[link] ==>
                 && link in Begun(actions)
                 && (|| h.links[link] == Accepted(orig[link])
                     || h.journal == Some(Complete(Record(link, Accepted(orig[link]))))))
            && (h.links[link] != orig[link] && AreResolvers(orig[link]) ==>
                 h.journal == Some(Complete(Record(link, orig[link]))))
  {
    RunSafe(s, actions, orig, {});
    assert {} + Begun(actions) == Begun(actions);
    assert Kept(orig, Begun(actions), link, Goal(Run(s, actions).host)[link]);
    AcceptedShorter(orig[link]);
  }

  /** Restarting after a crash at any point: boot, read, put back, delete. */
  function Recover(s: State): State {
    Run(s, [Boot, Proceed, Proceed, Proceed])
  }

  /** A shutdown of an idle daemon that runs through: read, put back, delete. */
  function Shutdown(s: State): State {
    Run(s, [Stop, Proceed, Proceed, Proceed])
  }

  lemma RunFirst(s: State, a: Action, rest: seq<Action>)
    ensures Run(s, [a] + rest) == Run(Step(s, a), rest)
  {
    assert ([a] + rest)[1..] == rest;
  }

  lemma RunUnfolds(s: State, first: Action, a: Action, b: Action, c: Action)
    ensures Run(s, [first, a, b, c]) == Step(Step(Step(Step(s, first), a), b), c)
  {
    var s1 := Step(s, first);
    RunFirst(s, first, [a, b, c]);
    RunFirst(s1, a, [b, c]);
    RunFirst(Step(s1, a), b, [c]);
    RunFirst(Step(Step(s1, a), b), c, []);
    assert [first] + [a, b, c] == [first, a, b, c] && [a] + [b, c] == [a, b, c];
    assert [b] + [c] == [b, c] && [c] + [] == [c];
  }

  /** The links hold what is kept of their originals, and no record is on file. */
  ghost predicate PutBack(h: Host, orig: Original, begun: set<string>) {
    && h.links.Keys == orig.Keys && ReadJournal(true, h).None?
    && (forall l :: l in orig ==> Kept(orig, begun, l, h.links[l]))
  }

  /** When the pattern accepts every list that was to be changed, what is kept is everything. */
  lemma PutBackExactly(h: Host, orig: Original, begun: set<string>)
    requires PutBack(h, orig, begun) && forall l :: l in begun && l in orig ==> AreResolvers(orig[l])
    ensures h.links == orig
  {
    forall l | l in orig ensures h.links[l] == orig[l] {
      assert Kept(orig, begun, l, h.links[l]);
      AcceptedShorter(orig[l]);
    }
  }

  /**
   * From every reachable state, whatever was interrupted and however many restores were themselves
   * interrupted, the first restart that runs through leaves no record, links never to be changed as
   * they were, and the others with their original list or what the pattern accepts of it. The lists
   * are exactly the originals when the pattern accepts those of the links that were to be changed.
   */
  lemma RecoveryRestores(s: State, actions: seq<Action>, orig: Original)
    requires Fresh(s, orig) && DisciplinedRun(s, actions) && Run(s, actions).task.Down?
    ensures var r := Recover(Run(s, actions));
            && r.task.Idle? && PutBack(r.host, orig, Begun(actions))
            && ((forall l :: l in Begun(actions) && l in orig ==> AreResolvers(orig[l])) ==> r.host.links == orig)
  {
    RunSafe(s, actions, orig, {});
    assert {} + Begun(actions) == Begun(actions);
    RestoreSafe(Run(s, actions), Boot, orig, Begun(actions));
    if forall l :: l in Begun(actions) && l in orig ==> AreResolvers(orig[l]) {
      PutBackExactly(Recover(Run(s, actions)).host, orig, Begun(actions));
    }
  }

  /**
   * From every reachable idle state a shutdown that runs through ends the daemon with no record on
   * file, links never to be changed as they were, and the others with their original list or what the
   * pattern accepts of it; exactly the originals when it accepts those of the links to be changed.
   */
  lemma ShutdownRestores(s: State, actions: seq<Action>, orig: Original)
    requires Fresh(s, orig) && DisciplinedRun(s, actions) && Run(s, actions).task.Idle?
    ensures var r := Shutdown(Run(s, actions));
            && r.task.Down? && PutBack(r.host, orig, Begun(actions))
            && ((forall l :: l in Begun(actions) && l in orig ==> AreResolvers(orig[l])) ==> r.host.links == orig)
  {
    RunSafe(s, actions, orig, {});
    assert {} + Begun(actions) == Begun(actions);
    RestoreSafe(Run(s, actions), Stop, orig, Begun(actions));
    if forall l :: l in Begun(actions) && l in orig ==> AreResolvers(orig[l]) {
      PutBackExactly(Shutdown(Run(s, actions)).host, orig, Begun(actions));
    }
  }

  /** The daemon is about to restore: at a start, or at the end of its life. */
  predicate Restores(s: State, a: Action) { (a == Boot && s.task.Down?) || (a == Stop && s.task.Idle?) }

  /** A restore that runs through from where it puts a record back. */
  lemma RecordPutBack(s: State, orig: Original, begun: set<string>)
    requires Safe(s, orig, begun) && s.task.PuttingBack?
    ensures var r := Step(Step(s, Proceed), Proceed);
            PutBack(r.host, orig, begun) && r.task == Finished(s.task.exit)
  {
    var s' := Step(s, Proceed);
    ProceedSafe(s, orig, begun);
    assert s'.task == Deleting(s.task.exit);
    CompletedRestore(s', orig, begun);
  }

  lemma NothingToPutBack(s: State, orig: Original, begun: set<string>)
    requires Safe(s, orig, begun) && Pending(s).None?
    ensures PutBack(s.host, orig, begun)
  {
    assert Goal(s.host) == s.host.links;
  }

  lemma RestoreSafe(s: State, first: Action, orig: Original, begun: set<string>)
    requires Safe(s, orig, begun) && Restores(s, first)
    ensures var r := Run(s, [first, Proceed, Proceed, Proceed]);
            PutBack(r.host, orig, begun) && if first == Stop then r.task.Down? else r.task.Idle?
  {
    RunUnfolds(s, first, Proceed, Proceed, Proceed);
    var s1 := Step(s, first);
    var s2 := Step(s1, Proceed);
    ProceedSafe(s1, orig, begun);
    if Pending(s).Some? {
      RecordPutBack(s2, orig, begun);
    } else {
      NothingToPutBack(s, orig, begun);
      assert Step(s2, Proceed) == s2 && Step(s2, Proceed).host == s.host;
    }
  }

  /** How many primitive actions a restore has left at most. */
  function Left(t: Task): nat {
    match t
    case Restoring(_) => 3
    case PuttingBack(_, _) => 2
    case Deleting(_) => 1
    case _ => 0
  }

  /** The record is gone or as it was at `s0`, and only its link may have changed, to what it holds. */
  ghost predicate OnlyPutBack(s0: State, s: State) {
    && s.persistent == s0.persistent && (Pending(s).None? || Pending(s) == Pending(s0))
    && s.host.links.Keys == s0.host.links.Keys
    && forall l :: l in s0.host.links && s.host.links[l] != s0.host.links[l] ==>
         Pending(s0) == Some(Record(l, s.host.links[l]))
  }

  /** A restore begun in `s0` is under way in `s`, or over. */
  ghost predicate Ending(s0: State, s: State, exit: bool) {
    && OnlyPutBack(s0, s)
    && (s.task == Restoring(exit) || s.task == Deleting(exit) || s.task == Finished(exit)
        || (Pending(s).Some? && s.task == PuttingBack(Pending(s).value, exit)))
  }

  lemma EndingStep(s0: State, s: State, exit: bool, a: Action)
    requires Ending(s0, s, exit) && (a.Proceed? || a.Fail?)
    ensures Ending(s0, Step(s, a), exit)
    ensures Left(Step(s, a).task) == 0 || Left(Step(s, a).task) < Left(s.task)
  {
    assert OnlyPutBack(s0, s.(host := Effect(s))) by {
      if s.task.PuttingBack? {
        var r := s.task.record;
        assert Effect(s).links == if r.link in s.host.links then s.host.links[r.link := r.servers] else s.host.links;
      }
    }
  }

  lemma {:induction false} RunEnding(s0: State, s: State, exit: bool, actions: seq<Action>)
    requires Ending(s0, s, exit) && forall a :: a in actions ==> a.Proceed? || a.Fail?
    ensures Ending(s0, Run(s, actions), exit)
    ensures |actions| >= Left(s.task) ==> Left(Run(s, actions).task) == 0
    decreases actions
  {
    if actions != [] {
      EndingStep(s0, s, exit, actions[0]);
      RunEnding(s0, Step(s, actions[0]), exit, actions[1..]);
    }
  }

  /**
   * Whatever fails in it, a restore comes to an end: a start leaves the daemon running and a shutdown
   * leaves it down. The record is gone or as it was, and only its link may have changed.
   */
  lemma RestoreEnds(s: State, first: Action, rest: seq<Action>)
    requires Restores(s, first) && |rest| >= 3 && forall a :: a in rest ==> a.Proceed? || a.Fail?
    ensures var r := Run(s, [first] + rest);
            OnlyPutBack(s, r) && if first == Stop then r.task.Down? else r.task.Idle?
  {
    assert ([first] + rest)[1..] == rest;
    RunEnding(s, Step(s, first), first == Stop, rest);
  }

  /** Any step that completes a restore leaves what is kept of the originals, and no record. */
  lemma CompletedRestore(s: State, orig: Original, begun: set<string>)
    requires Safe(s, orig, begun) && s.task.Deleting?
    ensures PutBack(Step(s, Proceed).host, orig, begun) && Step(s, Proceed).host.journal == None
  {
    ProceedSafe(s, orig, begun);
  }

  // ---------------------------------------------------------------- the exact condition

  /** The host after `applyDnsProvider` runs through without faults. */
  function Applied(persistent: bool, h: Host, link: string, servers: seq<string>): Host {
    SetLink(Captured(persistent, h, link), link, servers)
  }

  /** The host after the capture: an existing record, of whatever link, is left alone. */
  function Captured(persistent: bool, h: Host, link: string): Host {
    if ReadJournal(persistent, h).Some? || link !in h.links || !persistent then h
    else h.(journal := Some(Complete(Record(link, Parse(Print(h.index, link, h.links[link]))))), tmp := None)
  }

  /** A restore would put everything back. */
  ghost predicate Undoable(persistent: bool, h: Host, orig: Original) { Restored(persistent, h).links == orig }

  /**
   * A change to a link keeps everything undoable exactly in these cases. Without a path: when it
   * changes nothing. With a record on file: when the record is of that link, or nothing changes.
   * With no record: when the pattern accepts every server of the link's list.
   */
  lemma ApplyExact(persistent: bool, h: Host, link: string, servers: seq<string>, orig: Original)
    requires Undoable(persistent, h, orig) && link in h.links
    requires IsLinkName(h.index) && IsLinkName(link) && AreWords(h.links[link])
    ensures Undoable(persistent, Applied(persistent, h, link, servers), orig) <==>
      if !persistent then servers == h.links[link]
      else if ReadJournal(true, h).Some? then ReadJournal(true, h).value.link == link || servers == h.links[link]
      else AreResolvers(h.links[link])
  {
    var h' := Applied(persistent, h, link, servers);
    assert h'.links == h.links[link := servers];
    if !persistent {
      assert servers == h.links[link] ==> h'.links == h.links;
    } else if ReadJournal(true, h).Some? {
      ApplyOnRecord(h, link, servers, orig);
    } else {
      CapturedAndRestored(h, link, servers);
    }
  }

  lemma ApplyOnRecord(h: Host, link: string, servers: seq<string>, orig: Original)
    requires Undoable(true, h, orig) && link in h.links && ReadJournal(true, h).Some?
    ensures Undoable(true, Applied(true, h, link, servers), orig) <==>
      ReadJournal(true, h).value.link == link || servers == h.links[link]
  {
    var r, h' := ReadJournal(true, h).value, Applied(true, h, link, servers);
    assert h'.links == h.links[link := servers];
    if r.link in h.links {
      assert Restored(true, h').links == h.links[link := servers][r.link := r.servers];
    }
    if r.link == link || servers == h.links[link] {
      assert Restored(true, h').links == orig;
    } else {
      assert Restored(true, h').links[link] == servers && orig[link] == h.links[link];
    }
  }

  /**
   * A change and its restore leave what the pattern accepts of the list, which is the list exactly
   * when the pattern accepts all of it.
   */
  lemma CapturedAndRestored(h: Host, link: string, servers: seq<string>)
    requires ReadJournal(true, h).None? && link in h.links
    requires IsLinkName(h.index) && IsLinkName(link) && AreWords(h.links[link])
    ensures var h' := Restored(true, Applied(true, h, link, servers));
            && h'.links == h.links[link := Accepted(h.links[link])] && h'.journal == None
            && (h'.links == h.links <==> AreResolvers(h.links[link]))
  {
    ParsePrint(h.index, link, h.links[link]);
    AcceptedShorter(h.links[link]);
    var h' := Restored(true, Applied(true, h, link, servers));
    assert h'.links == h.links[link := servers][link := Accepted(h.links[link])];
    if AreResolvers(h.links[link]) {
      assert h'.links == h.links;
    } else {
      assert h'.links[link] != h.links[link];
    }
  }

  /** A server written in brackets, as one with a port is, is dropped by the capture and lost by the restore. */
  lemma BracketedServerIsLost(h: Host, link: string, servers: seq<string>, server: string)
    requires ReadJournal(true, h).None? && link in h.links
    requires IsLinkName(h.index) && IsLinkName(link) && AreWords(h.links[link])
    requires server in h.links[link] && "[" <= server
    ensures var h' := Restored(true, Applied(true, h, link, servers));
            link in h'.links && server !in h'.links[link] && h'.journal == None
  {
    CapturedAndRestored(h, link, servers);
    AcceptedAreResolvers(h.links[link]);
    assert AddressLength(server) == 0 && !IsResolver(server);
  }

  const PortedServer := "[2606:4700::1111]:853"

  /** A host whose only link has one server, given with its port. */
  const PortedHost := Host(None, None, map["eth0" := [PortedServer]], "2")

  lemma PortedServerIsLost(servers: seq<string>)
    ensures PortedServer !in Restored(true, Applied(true, PortedHost, "eth0", servers)).links["eth0"]
  {
    BracketedServerIsLost(PortedHost, "eth0", servers, PortedServer);
  }

  /** Why the discipline is needed: a second link changed in one episode is never put back. */
  lemma SecondLinkIsLost(h: Host, a: string, b: string, sa: seq<string>, sb: seq<string>)
    requires a != b && a in h.links && b in h.links && ReadJournal(true, h).None? && sb != h.links[b]
    ensures var h' := Restored(true, Applied(true, Applied(true, h, a, sa), b, sb));
            h'.links[b] == sb != h.links[b] && ReadJournal(true, h').None?
  {
  }

  /** Why the path is needed: without a state directory no restore ever undoes a change. */
  lemma NoPathNoRestore(h: Host, link: string, servers: seq<string>)
    requires link in h.links && servers != h.links[link]
    ensures Restored(false, Applied(false, h, link, servers)).links[link] == servers != h.links[link]
  {
  }

  // ---------------------------------------------------------------- the journal object

  lemma {:induction false} RunAppend(s: State, actions: seq<Action>, a: Action)
    ensures Run(s, actions + [a]) == Step(Run(s, actions), a)
    decreases actions
  {
    if actions == [] {
      assert ([a])[1..] == [];
    } else {
      assert (actions + [a])[1..] == actions[1..] + [a];
      RunAppend(Step(s, actions[0]), actions[1..], a);
    }
  }

  lemma {:induction false} RunConcat(s: State, xs: seq<Action>, ys: seq<Action>)
    ensures Run(s, xs + ys) == Run(Run(s, xs), ys)
    decreases xs
  {
    if xs == [] {
      assert xs + ys == ys;
    } else {
      assert (xs + ys)[1..] == xs[1..] + ys;
      RunConcat(Step(s, xs[0]), xs[1..], ys);
    }
  }

  /**
   * A failure or a crash may leave any contents in the temporary file if it was being written, and
   * otherwise the host as it was or as the finished action would have left it; and nothing else.
   */
  lemma FaultsExactly(s: State, h: Host)
    ensures (exists effect, torn :: Step(s, Crash(effect, torn)) == State(s.persistent, h, Down)) <==>
      if s.task.WritingTmp? then exists torn :: h == s.host.(tmp := Some(torn))
      else h == s.host || h == Step(s, Proceed).host
    ensures forall effect, torn :: Step(s, Fail(effect, torn)).host == Step(s, Crash(effect, torn)).host
  {
    assert Step(s, Crash(false, Unreadable)).host == s.host || s.task.WritingTmp?;
    assert Step(s, Crash(true, Unreadable)).host == Step(s, Proceed).host || s.task.WritingTmp?;
    forall torn | s.task.WritingTmp? && h == s.host.(tmp := Some(torn))
      ensures Step(s, Crash(false, torn)) == State(s.persistent, h, Down)
    {
    }
  }

  /**
   * Only an idle daemon takes up a change, and only to some servers, or a shutdown, and only one that
   * is down starts. After a failure a change leaves it idle, a start too, and a shutdown leaves it down.
   */
  lemma BeginsAndFailsExactly(s: State, a: Action)
    ensures a.BeginApply? ==>
      Step(s, a) == if s.task == Idle && a.servers != [] then s.(task := Checking(a.link, a.servers)) else s
    ensures a == Stop ==> Step(s, a) == if s.task == Idle then s.(task := Restoring(true)) else s
    ensures a == Boot ==> Step(s, a) == if s.task == Down then s.(task := Restoring(false)) else s
    ensures a.Fail? ==>
      Step(s, a).task == if s.task == Down || (Left(s.task) > 0 && s.task.exit) then Down else Idle
  {
  }

  /** A restore of a record for a link the host does not have changes nothing and keeps the record. */
  lemma UnknownLinkKeepsRecord(s: State)
    requires s.task.Restoring? && Pending(s).Some? && Pending(s).value.link !in s.host.links
    ensures Run(s, [Proceed, Proceed]) == s.(task := if s.task.exit then Down else Idle)
  {
    RunFirst(s, Proceed, [Proceed]);
    RunFirst(Step(s, Proceed), Proceed, []);
    assert [Proceed] + [Proceed] == [Proceed, Proceed] && [Proceed] + [] == [Proceed];
  }

  /** Where a change asked for while idle is after four actions. */
  lemma ApplyBegins(s: State, link: string, servers: seq<string>)
    requires s.task.Idle? && servers != [] && link in s.host.links
    ensures var captured := Record(link, Parse(Print(s.host.index, link, s.host.links[link])));
            Run(s, [BeginApply(link, servers), Proceed, Proceed, Proceed]) ==
              if Pending(s).Some? then s.(host := SetLink(s.host, link, servers))
              else if s.persistent then
                State(true, s.host.(tmp := Some(Unreadable)), WritingTmp(link, servers, captured))
              else s.(task := Switching(link, servers))
  {
    RunUnfolds(s, BeginApply(link, servers), Proceed, Proceed, Proceed);
  }

  /** Where it is after four more: the record is written and renamed, and the link is switched. */
  lemma ApplyGoesOn(s: State, link: string, servers: seq<string>, record: Record)
    ensures s.task == WritingTmp(link, servers, record) ==>
      Run(s, [Proceed, Proceed, Proceed, Proceed]) == State(
        s.persistent, SetLink(s.host.(journal := Some(Complete(record)), tmp := None), link, servers), Idle)
    ensures s.task == Switching(link, servers) ==>
      Run(s, [Proceed, Proceed, Proceed, Proceed]) == State(s.persistent, SetLink(s.host, link, servers), Idle)
    ensures s.task.Idle? ==> Run(s, [Proceed, Proceed, Proceed, Proceed]) == s
  {
    RunUnfolds(s, Proceed, Proceed, Proceed, Proceed);
  }

  /** A change asked for while idle that runs through; a shorter way to the end is followed by idling. */
  function ApplyAll(s: State, link: string, servers: seq<string>): State {
    Run(s, [BeginApply(link, servers), Proceed, Proceed, Proceed] + [Proceed, Proceed, Proceed, Proceed])
  }

  lemma ApplyReaches(s: State, link: string, servers: seq<string>)
    requires s.task.Idle? && servers != [] && link in s.host.links
    ensures ApplyAll(s, link, servers) == State(s.persistent, Applied(s.persistent, s.host, link, servers), Idle)
  {
    ApplyBegins(s, link, servers);
    var first := [BeginApply(link, servers), Proceed, Proceed, Proceed];
    RunConcat(s, first, [Proceed, Proceed, Proceed, Proceed]);
    ApplyGoesOn(Run(s, first), link, servers, Record(link, Parse(Print(s.host.index, link, s.host.links[link]))));
  }

  /**
   * A change asked for while idle that runs through, capture included: the daemon is idle again, the
   * link has the new servers and no other link changed. A record on file stays; without one there is
   * one of that link now, if there is a path.
   */
  lemma ApplyRuns(s: State, link: string, servers: seq<string>)
    requires s.task.Idle? && servers != [] && link in s.host.links
    ensures var r := ApplyAll(s, link, servers);
            && r.task.Idle? && r.host.links == s.host.links[link := servers]
            && (Pending(s).Some? ==> Pending(r) == Pending(s))
            && (Pending(s).None? ==> (Pending(r).Some? <==> s.persistent))
            && (Pending(s).None? && s.persistent ==> Pending(r).value.link == link)
  {
    ApplyReaches(s, link, servers);
  }

  /** How a `resolvectl` command ends. */
  datatype Outcome = Done | Failed(effect: bool)

  /**
   * The journal and its two callers as straight-line code over the host. Each method returns the
   * trace of primitive actions it went through, so it is one of the runs above.
   */
  class DnsRestoreJournal {
    const persistent: bool
    var host: Host

    constructor (persistent: bool, host: Host)
      ensures this.persistent == persistent && this.host == host
    {
      this.persistent, this.host := persistent, host;
    }

    method Read() returns (r: Option<Record>)
      ensures r.Some? <==> persistent && host.journal.Some? && host.journal.value.Complete?
      ensures r.Some? ==> host.journal == Some(Complete(r.value))
    {
      r := None;
      if persistent && host.journal.Some? {
        match host.journal.value
        case Complete(record) => r := Some(record);
        case Unreadable =>
      }
    }

    /** Without a path nothing is written; otherwise the record gets there by an atomic rename. */
    method WriteRecord(record: Record)
      modifies this
      ensures host == if persistent then old(host).(journal := Some(Complete(record)), tmp := None) else old(host)
      ensures persistent ==>
        var t := State(true, old(host), OpeningTmp(record.link, [], record));
        Run(t, [Proceed, Proceed, Proceed]) == State(true, host, Switching(record.link, []))
    {
      if !persistent {
        return;
      }
      host := host.(tmp := Some(Unreadable));
      host := host.(tmp := Some(Complete(record)));
      host := host.(journal := host.tmp, tmp := None);
      assert [Proceed, Proceed, Proceed][1..] == [Proceed, Proceed] && [Proceed, Proceed][1..] == [Proceed];
      assert [Proceed][1..] == [];
    }

    /** `sv` is the list the caller is about to set. */
    method CaptureBeforeChange(link: string, ghost sv: seq<string>, query: Outcome)
      returns (ok: bool, ghost trace: seq<Action>)
      modifies this
      ensures Run(State(persistent, old(host), Checking(link, sv)), trace)
        == State(persistent, host, if ok then Switching(link, sv) else Idle)
      ensures host == if ok then Captured(persistent, old(host), link) else old(host)
      ensures query == Done && link in old(host).links ==> ok
      ensures forall a :: a in trace ==> !a.BeginApply?
    {
      ghost var start := State(persistent, host, Checking(link, sv));
      trace := [Proceed];
      assert Run(start, trace) == Step(start, Proceed) by { assert trace[1..] == []; }
      var record := Read();
      if record.Some? {
        return true, trace;
      }
      if query.Failed? || link !in host.links {
        RunAppend(start, trace, Fail(false, Unreadable));
        return false, trace + [Fail(false, Unreadable)];
      }
      var captured := Record(link, Parse(Print(host.index, link, host.links[link])));
      RunAppend(start, trace, Proceed);
      trace := trace + [Proceed];
      if persistent {
        RunAppend(start, trace, Proceed);
        trace := trace + [Proceed];
        RunAppend(start, trace, Proceed);
        trace := trace + [Proceed];
        RunAppend(start, trace, Proceed);
        trace := trace + [Proceed];
      } else {
        RunAppend(start, trace, Proceed);
        trace := trace + [Proceed];
      }
      WriteRecord(captured);
      ok := true;
    }

    method ApplyDnsProvider(link: string, servers: seq<string>, query: Outcome, switch: Outcome)
      returns (ghost trace: seq<Action>)
      modifies this
      ensures Run(State(persistent, old(host), Idle), trace) == State(persistent, host, Idle)
      ensures forall a :: a in trace && a.BeginApply? ==> a.link == link
      ensures servers != [] && query == Done && switch == Done && link in old(host).links ==>
        host == Applied(persistent, old(host), link, servers)
    {
      trace := [];
      if servers == [] {
        return;
      }
      ghost var start := State(persistent, host, Idle);
      ghost var first := [BeginApply(link, servers)];
      assert Run(start, first) == start.(task := Checking(link, servers)) by { assert first[1..] == []; }
      ghost var capture;
      var ok;
      ok, capture := CaptureBeforeChange(link, servers, query);
      RunConcat(start, first, capture);
      trace := first + capture;
      if !ok {
        return;
      }
      if switch == Done {
        RunAppend(start, trace, Proceed);
        host := SetLink(host, link, servers);
        trace := trace + [Proceed];
      } else {
        RunAppend(start, trace, Fail(switch.effect, Unreadable));
        host := if switch.effect then SetLink(host, link, servers) else host;
        trace := trace + [Fail(switch.effect, Unreadable)];
      }
    }

    /** The restore of a start or, with `exit`, of a shutdown. */
    method Restore(putBack: Outcome, ghost exit: bool) returns (restored: bool, ghost trace: seq<Action>)
      modifies this
      ensures Run(State(persistent, old(host), Restoring(exit)), trace) == State(persistent, host, Finished(exit))
      ensures restored ==> host == Restored(persistent, old(host)) && ReadJournal(persistent, host).None?
      ensures !restored ==> host.journal == old(host.journal)
    {
      ghost var start := State(persistent, host, Restoring(exit));
      trace := [Proceed];
      assert Run(start, trace) == Step(start, Proceed) by { assert trace[1..] == []; }
      var record := Read();
      if record.None? {
        return false, trace;
      }
      if putBack.Failed? || record.value.link !in host.links {
        RunAppend(start, trace, Fail(putBack.Failed? && putBack.effect, Unreadable));
        trace := trace + [Fail(putBack.Failed? && putBack.effect, Unreadable)];
        if putBack.Failed? && putBack.effect {
          host := SetLink(host, record.value.link, record.value.servers);
        }
        return false, trace;
      }
      RunAppend(start, trace, Proceed);
      host := SetLink(host, record.value.link, record.value.servers);
      trace := trace + [Proceed];
      RunAppend(start, trace, Proceed);
      host := host.(journal := None);
      trace := trace + [Proceed];
      restored := true;
    }
  }
}
