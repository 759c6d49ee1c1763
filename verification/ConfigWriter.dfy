/** Concurrent writers of the config file: a lock, and a write through a temporary
    file that is renamed. Every step may fail, and steps of different writers
    interleave in any order. A step that fails while it writes a file may leave
    anything in it. */
module ConfigWriter {
  import opened Text
  import opened ConfigAppend
  import opened ConfigEntries
  import AwsParser
  import Sections
  import HeaderCounts

  datatype Result = Ok(appended: bool) | Err

  /** The steps of `write_atomic_with_backup_perms`. */
  datatype Stage = MakeDirs | Backup | WriteTemp | SetModes | Rename | RemoveTemp | CopyBack

  /** Whether a step fails, and if it writes a file, what it leaves of it. */
  datatype Fault = Fine | Fails(left: Option<string>)

  /** Where a writer is. */
  datatype Place =
    | Waiting
    | Entered
    | Loaded(existing: string)
    | Writing(stage: Stage, existing: string, updated: string, appended: bool)
    | Finished(result: Result)

  /** The lock, the files, the writers, and the calls that took effect so far, in the
      order they did, with what they return. */
  datatype State = State(lock: Option<nat>, file: Option<string>, backup: Option<string>, temp: Option<string>,
                         places: seq<Place>, log: seq<(nat, bool)>)

  /** `read_config_or_default`: a missing file reads as empty. */
  function Content(file: Option<string>): string {
    if file.Some? then file.value else ""
  }

  function Start(file: Option<string>, n: nat): State {
    State(None, file, None, None, seq(n, _ => Waiting), [])
  }

  function Leave(s: State, i: nat, result: Result): State
    requires i < |s.places|
  {
    s.(lock := None, places := s.places[i := Finished(result)])
  }

  function At(s: State, i: nat, place: Place): State
    requires i < |s.places|
  {
    s.(places := s.places[i := place])
  }

  /** One step of a write. */
  function WriteStep(s: State, i: nat, w: Place, fault: Fault): State
    requires i < |s.places| && w.Writing?
  {
    match w.stage
    case MakeDirs => if fault.Fails? then Leave(s, i, Err) else At(s, i, w.(stage := Backup))
    case Backup =>
      if fault.Fails? then Leave(s.(backup := fault.left), i, Err)
      else At(s.(backup := Some(Content(s.file))), i, w.(stage := WriteTemp))
    case WriteTemp =>
      if fault.Fails? then Leave(s.(temp := fault.left), i, Err)
      else At(s.(temp := Some(w.updated)), i, w.(stage := SetModes))
    case SetModes => if fault.Fails? then Leave(s, i, Err) else At(s, i, w.(stage := Rename))
    case Rename =>
      if fault.Fails? then At(s, i, w.(stage := RemoveTemp))
      else Leave(s.(file := s.temp, temp := None, log := s.log + [(i, w.appended)]), i, Ok(w.appended))
    case RemoveTemp => At(s.(temp := if fault.Fails? then s.temp else None), i, w.(stage := CopyBack))
    case CopyBack => Leave(s.(file := if fault.Fails? then fault.left else s.backup), i, Err)
  }

  /** One step of writer `i`; a writer that finds the lock taken waits. */
  function Step(s: State, calls: seq<Call>, i: nat, fault: Fault): (r: State)
    requires i < |s.places| == |calls|
    ensures |r.places| == |s.places|
  {
    match s.places[i]
    case Waiting => if s.lock.None? then At(s.(lock := Some(i)), i, Entered) else s
    case Entered => if fault.Fails? then Leave(s, i, Err) else At(s, i, Loaded(Content(s.file)))
    case Loaded(existing) =>
      var (updated, appended) := Transform(existing, calls[i]);
      if updated == existing then Leave(s.(log := s.log + [(i, appended)]), i, Ok(appended))
      else At(s, i, Writing(MakeDirs, existing, updated, appended))
    case Writing(_, _, _, _) => WriteStep(s, i, s.places[i], fault)
    case Finished(_) => s
  }

  // ---------------------------------------------------------------------
  // The invariant
  // ---------------------------------------------------------------------

  predicate Inside(p: Place) {
    p.Entered? || p.Loaded? || p.Writing?
  }

  /** What a writer inside the lock knows of the files. */
  ghost predicate Knows(s: State, call: Call, p: Place) {
    match p
    case Loaded(existing) => existing == Content(s.file)
    case Writing(stage, existing, updated, appended) =>
      && existing == Content(s.file) && (updated, appended) == Transform(existing, call)
      && (!stage.MakeDirs? && !stage.Backup? ==> s.backup == Some(existing))
      && (stage.SetModes? || stage.Rename? ==> s.temp == Some(updated))
    case _ => true
  }

  function Order(calls: seq<Call>, log: seq<(nat, bool)>): seq<Call>
    requires forall k | 0 <= k < |log| :: log[k].0 < |calls|
  {
    seq(|log|, k requires 0 <= k < |log| => calls[log[k].0])
  }

  function Returned(log: seq<(nat, bool)>): seq<bool> {
    seq(|log|, k requires 0 <= k < |log| => log[k].1)
  }

  ghost predicate Valid(s: State, calls: seq<Call>, initial: Option<string>) {
    && |s.places| == |calls|
    && (forall i | 0 <= i < |calls| :: Inside(s.places[i]) ==> s.lock == Some(i) && Knows(s, calls[i], s.places[i]))
    && (s.lock.Some? ==> s.lock.value < |calls| && Inside(s.places[s.lock.value]))
    && (forall k | 0 <= k < |s.log| :: s.log[k].0 < |calls| && s.places[s.log[k].0] == Finished(Ok(s.log[k].1)))
    && (forall j, k | 0 <= j < k < |s.log| :: s.log[j].0 != s.log[k].0)
    && (forall i | 0 <= i < |calls| && s.places[i].Finished? && s.places[i].result.Ok? :: (i, s.places[i].result.appended) in s.log)
    && (Content(s.file), Returned(s.log)) == Serial(Content(initial), Order(calls, s.log))
  }

  lemma {:induction false} StartValid(file: Option<string>, calls: seq<Call>)
    ensures Valid(Start(file, |calls|), calls, file)
  {
    hide Transform;
    assert Order(calls, []) == [] && Returned([]) == [];
  }

  /** Effects come one after another. */
  lemma {:induction false} SerialStep(initial: string, calls: seq<Call>, log: seq<(nat, bool)>, content: string,
          i: nat)
    requires i < |calls| && forall k | 0 <= k < |log| :: log[k].0 < |calls|
    requires (content, Returned(log)) == Serial(initial, Order(calls, log))
    ensures var (updated, appended) := Transform(content, calls[i]);
            var log' := log + [(i, appended)];
            && (forall k | 0 <= k < |log'| :: log'[k].0 < |calls|)
            && (updated, Returned(log')) == Serial(initial, Order(calls, log'))
  {
    hide Transform;
    var (updated, appended) := Transform(content, calls[i]);
    var log' := log + [(i, appended)];
    var order := Order(calls, log');
    assert order == Order(calls, log) + [calls[i]];
    assert order[..|order| - 1] == Order(calls, log);
    assert Returned(log') == Returned(log) + [appended];
  }

  /** A writer inside the lock moves on: what the others know is untouched, since
      none of them is inside. */
  lemma {:induction false} MoveOn(s: State, s': State, calls: seq<Call>, initial: Option<string>, i: nat, p: Place)
    requires Valid(s, calls, initial) && i < |calls| && (s.lock == Some(i) || (s.lock == None && s.places[i] == Waiting))
    requires !s.places[i].Finished?
    requires s' == State(Some(i), s.file, s'.backup, s'.temp, s.places[i := p], s.log)
    requires Inside(p) && Knows(s', calls[i], p)
    ensures Valid(s', calls, initial)
  {
    hide Transform, Serial, Knows;
    forall j | 0 <= j < |calls| ensures Inside(s'.places[j]) ==> s'.lock == Some(j) && Knows(s', calls[j], s'.places[j]) {
      if j != i { assert !Inside(s.places[j]); }
    }
  }

  /** A writer leaves with an error: the content is as it was. */
  lemma {:induction false} LeaveWithError(s: State, s': State, calls: seq<Call>, initial: Option<string>, i: nat)
    requires Valid(s, calls, initial) && i < |calls| && s.lock == Some(i)
    requires s' == State(None, s'.file, s'.backup, s'.temp, s.places[i := Finished(Err)], s.log) && Content(s'.file) == Content(s.file)
    ensures Valid(s', calls, initial)
  {
    hide Transform, Serial, Knows;
  }

  /** A writer leaves with its content in place. */
  lemma {:induction false} LeaveWithEffect(s: State, s': State, calls: seq<Call>, initial: Option<string>, i: nat,
          appended: bool)
    requires Valid(s, calls, initial) && i < |calls| && s.lock == Some(i)
    requires s' == State(None, s'.file, s'.backup, s'.temp, s.places[i := Finished(Ok(appended))], s.log + [(i, appended)])
    requires (Content(s'.file), appended) == Transform(Content(s.file), calls[i])
    ensures Valid(s', calls, initial)
  {
    hide Transform, Serial, Knows;
    SerialStep(Content(initial), calls, s.log, Content(s.file), i);
    var log' := s.log + [(i, appended)];
    assert log'[|s.log|] == (i, appended);
    forall j | 0 <= j < |calls| && s'.places[j].Finished? && s'.places[j].result.Ok?
      ensures (j, s'.places[j].result.appended) in s'.log
    {
      if j != i { assert (j, s.places[j].result.appended) in s.log; }
    }
  }

  /** The copy that restores the file fails and leaves another content in it. */
  ghost predicate Damages(s: State, i: nat, fault: Fault)
    requires i < |s.places|
  {
    s.places[i].Writing? && s.places[i].stage.CopyBack? && fault.Fails? && Content(fault.left) != Content(s.file)
  }

  /** A step keeps the invariant exactly if it is no damaging restore. */
  lemma {:induction false} StepValid(s: State, calls: seq<Call>, initial: Option<string>, i: nat, fault: Fault)
    requires Valid(s, calls, initial) && i < |calls|
    ensures |s.places| == |calls| && (Valid(Step(s, calls, i, fault), calls, initial) <==> !Damages(s, i, fault))
  {
    hide Transform, Serial, Valid;
    ValidPlaces(s, calls, initial, i);
    var s' := Step(s, calls, i, fault);
    match s.places[i] {
      case Waiting =>
        if s.lock.None? { MoveOn(s, s', calls, initial, i, Entered); }
      case Entered =>
        if fault.Fails? {
          LeaveWithError(s, s', calls, initial, i);
        } else {
          MoveOn(s, s', calls, initial, i, Loaded(Content(s.file)));
        }
      case Loaded(existing) =>
        var (updated, appended) := Transform(existing, calls[i]);
        if updated == existing {
          LeaveWithEffect(s, s', calls, initial, i, appended);
        } else {
          MoveOn(s, s', calls, initial, i, Writing(MakeDirs, existing, updated, appended));
        }
      case Writing(_, _, _, _) => WriteStepValid(s, calls, initial, i, fault);
      case Finished(_) =>
    }
  }

  /** With the log as it was, another content is not what the log leaves. */
  lemma {:induction false} DamageShows(s: State, s': State, calls: seq<Call>, initial: Option<string>)
    requires Valid(s, calls, initial) && s'.log == s.log && Content(s'.file) != Content(s.file)
    ensures !Valid(s', calls, initial)
  {
    hide Transform, Serial, Knows;
  }

  lemma {:induction false} ValidPlaces(s: State, calls: seq<Call>, initial: Option<string>, i: nat)
    requires Valid(s, calls, initial) && i < |calls|
    ensures |s.places| == |calls|
    ensures Inside(s.places[i]) ==> s.lock == Some(i) && Knows(s, calls[i], s.places[i])
  {
  }

  lemma {:induction false} WriteStepValid(s: State, calls: seq<Call>, initial: Option<string>, i: nat, fault: Fault)
    requires Valid(s, calls, initial) && i < |calls| && |s.places| == |calls| && s.places[i].Writing?
    ensures Valid(WriteStep(s, i, s.places[i], fault), calls, initial) <==> !Damages(s, i, fault)
  {
    hide Transform, Serial, Valid;
    ValidPlaces(s, calls, initial, i);
    var w := s.places[i];
    var s' := WriteStep(s, i, w, fault);
    if Damages(s, i, fault) {
      DamageShows(s, s', calls, initial);
    } else if w.stage.CopyBack? || (fault.Fails? && !w.stage.Rename? && !w.stage.RemoveTemp?) {
      LeaveWithError(s, s', calls, initial, i);
    } else if w.stage.Rename? && fault.Fine? {
      LeaveWithEffect(s, s', calls, initial, i, w.appended);
    } else {
      MoveOn(s, s', calls, initial, i, s'.places[i]);
    }
  }

  // ---------------------------------------------------------------------
  // Runs
  // ---------------------------------------------------------------------

  /** A schedule: which writer steps next, and whether the step fails. */
  type Schedule = seq<(nat, Fault)>

  ghost predicate IsSchedule(schedule: Schedule, calls: seq<Call>) {
    forall k | 0 <= k < |schedule| :: schedule[k].0 < |calls|
  }

  function Run(s: State, calls: seq<Call>, schedule: Schedule): (r: State)
    requires |s.places| == |calls| && IsSchedule(schedule, calls)
    ensures |r.places| == |calls|
    decreases |schedule|
  {
    if schedule == [] then s else Run(Step(s, calls, schedule[0].0, schedule[0].1), calls, schedule[1..])
  }

  /** No step of the run is a damaging restore. */
  ghost predicate Undamaged(s: State, calls: seq<Call>, schedule: Schedule)
    requires |s.places| == |calls| && IsSchedule(schedule, calls)
    decreases |schedule|
  {
    schedule == [] ||
    (!Damages(s, schedule[0].0, schedule[0].1)
     && Undamaged(Step(s, calls, schedule[0].0, schedule[0].1), calls, schedule[1..]))
  }

  /** The invariant holds after every step of the run. */
  ghost predicate AlwaysValid(s: State, calls: seq<Call>, initial: Option<string>, schedule: Schedule)
    requires |s.places| == |calls| && IsSchedule(schedule, calls)
  {
    forall k | 0 <= k <= |schedule| :: Valid(Run(s, calls, schedule[..k]), calls, initial)
  }

  lemma {:induction false} RunCons(s: State, calls: seq<Call>, schedule: Schedule, k: nat)
    requires |s.places| == |calls| && IsSchedule(schedule, calls) && 0 < k <= |schedule|
    ensures IsSchedule(schedule[1..], calls) && IsSchedule(schedule[1..][..k - 1], calls)
    ensures Run(s, calls, schedule[..k]) == Run(Step(s, calls, schedule[0].0, schedule[0].1), calls, schedule[1..][..k - 1])
  {
    hide Step;
    assert schedule[..k][1..] == schedule[1..][..k - 1];
  }

  lemma {:induction false} RunNone(s: State, calls: seq<Call>, schedule: Schedule)
    requires |s.places| == |calls|
    ensures Run(s, calls, []) == s && schedule[..0] == []
  {
  }

  lemma {:induction false} ValidIffUndamaged(s: State, calls: seq<Call>, initial: Option<string>, schedule: Schedule)
    requires |s.places| == |calls| && Valid(s, calls, initial) && IsSchedule(schedule, calls)
    ensures AlwaysValid(s, calls, initial, schedule) <==> Undamaged(s, calls, schedule)
    decreases |schedule|
  {
    hide Step, Valid, Damages, Run;
    RunNone(s, calls, schedule);
    if schedule != [] {
      var (i, fault) := schedule[0];
      var s', rest := Step(s, calls, i, fault), schedule[1..];
      StepValid(s, calls, initial, i, fault);
      RunNone(s', calls, rest);
      RunCons(s, calls, schedule, 1);
      assert Run(s, calls, schedule[..1]) == s';
      if !Damages(s, i, fault) {
        ValidIffUndamaged(s', calls, initial, rest);
        forall k | 0 < k <= |schedule| ensures Run(s, calls, schedule[..k]) == Run(s', calls, rest[..k - 1]) {
          RunCons(s, calls, schedule, k);
        }
        if AlwaysValid(s, calls, initial, schedule) {
          forall k | 0 <= k <= |rest| ensures Valid(Run(s', calls, rest[..k]), calls, initial) {
            assert Run(s, calls, schedule[..k + 1]) == Run(s', calls, rest[..(k + 1) - 1]);
          }
        }
      }
    }
  }

  /** At every moment of a run, with any failures, the file holds what the calls that
      took effect so far leave when made one after another, and exactly those have
      returned successfully: exactly if no restore left another content. */
  lemma {:induction false} WritersAreSerial(file: Option<string>, calls: seq<Call>, schedule: Schedule)
    requires IsSchedule(schedule, calls)
    ensures var s := Start(file, |calls|);
            AlwaysValid(s, calls, file, schedule) <==> Undamaged(s, calls, schedule)
  {
    hide Valid, Run;
    StartValid(file, calls);
    ValidIffUndamaged(Start(file, |calls|), calls, file, schedule);
  }

  /** So no header is lost; but for `default` in another case no name gets two sections,
      and of the calls for an absent name that succeeded exactly one returned true;
      the stray `[default]` of such a call counts as one. */
  lemma {:induction false} WritersAppendOnce(file: Option<string>, calls: seq<Call>, schedule: Schedule,
          header: string)
    requires AllGood(calls) && Sections.IsHeaderName(header) && IsSchedule(schedule, calls)
    requires Undamaged(Start(file, |calls|), calls, schedule)
    ensures var s := Run(Start(file, |calls|), calls, schedule);
            && (forall k | 0 <= k < |s.log| :: s.log[k].0 < |calls|)
            && AppendedOnce(Content(file), Order(calls, s.log), Content(s.file), Returned(s.log), header)
  {
    hide Run, Serial, GoodCall, Undamaged, AppendedOnce;
    WritersAreSerial(file, calls, schedule);
    assert schedule[..|schedule|] == schedule;
    var s := Run(Start(file, |calls|), calls, schedule);
    assert Valid(s, calls, file);
    SerialAppends(Content(file), Order(calls, s.log), header);
  }

  /** And the file has the entries it had, with one more for each call that returned
      true, in the order they took effect, each as its call says. */
  lemma {:induction false} WritersHoldEntries(file: Option<string>, calls: seq<Call>, schedule: Schedule)
    requires AllGood(calls) && AllPromised(Content(file), calls) && IsSchedule(schedule, calls)
    requires Undamaged(Start(file, |calls|), calls, schedule)
    ensures var s := Run(Start(file, |calls|), calls, schedule);
            && (forall k | 0 <= k < |s.log| :: s.log[k].0 < |calls|)
            && Holds(AwsParser.Parse(Content(file)), AwsParser.Parse(Content(s.file)), Taken(Order(calls, s.log), Returned(s.log)))
  {
    hide Run, Serial, GoodCall, Undamaged, Holds, Bare, Sound, AwsParser.Parse;
    WritersAreSerial(file, calls, schedule);
    assert schedule[..|schedule|] == schedule;
    var s := Run(Start(file, |calls|), calls, schedule);
    assert Valid(s, calls, file);
    SerialHolds(Content(file), Order(calls, s.log));
  }

  // ---------------------------------------------------------------------
  // A restore that fails
  // ---------------------------------------------------------------------

  /** One writer whose rename fails, and then the copy back, which leaves `left`. */
  function LosingSchedule(left: Option<string>): (schedule: Schedule)
    ensures |schedule| == 10 && forall k | 0 <= k < 10 :: schedule[k].0 == 0
  {
    [(0, Fine), (0, Fine), (0, Fine), (0, Fine), (0, Fine), (0, Fine), (0, Fine), (0, Fails(None)), (0, Fine), (0, Fails(left))]
  }

  /** Whatever the file held, and whatever is appended, it holds what the failed copy
      left, and the call reports the error of the rename. */
  lemma {:induction false} RestoreCanLoseTheFile(existing: string, call: Call, left: Option<string>)
    requires Transform(existing, call).0 != existing
    ensures var s := Run(Start(Some(existing), 1), [call], LosingSchedule(left));
            && s.file == left && s.places == [Finished(Err)] && s.log == []
            && (Undamaged(Start(Some(existing), 1), [call], LosingSchedule(left)) <==> Content(left) == existing)
  {
    hide Transform, Run, Undamaged, Step;
    var (updated, appended) := Transform(existing, call);
    var w := Writing(MakeDirs, existing, updated, appended);
    var s, all := Start(Some(existing), 1), LosingSchedule(left);
    var lost := State(None, left, Some(existing), None, [Finished(Err)], []);
    var entered, loaded := Alone(Some(existing), None, None, Entered), Alone(Some(existing), None, None, Loaded(existing));
    ReadingSteps(existing, call, updated, appended);
    Advance(s, [call], all, 0, entered);
    Advance(entered, [call], all, 1, loaded);
    Advance(loaded, [call], all, 2, Alone(Some(existing), None, None, w));
    Writes(Some(existing), call, left, w);
    FailsToRename(Some(existing), call, left, w);
    assert all[0..] == all && all[10..] == [];
    RunNone(lost, [call], []);
    NothingDamaged(lost, [call]);
  }

  /** One writer, inside the lock. */
  function Alone(file: Option<string>, backup: Option<string>, temp: Option<string>, p: Place): State {
    State(Some(0), file, backup, temp, [p], [])
  }

  lemma {:induction false} ReadingSteps(existing: string, call: Call, updated: string, appended: bool)
    requires Transform(existing, call) == (updated, appended) && updated != existing
    ensures var file := Some(existing);
            && Step(Start(file, 1), [call], 0, Fine) == Alone(file, None, None, Entered)
            && Step(Alone(file, None, None, Entered), [call], 0, Fine) == Alone(file, None, None, Loaded(existing))
            && Step(Alone(file, None, None, Loaded(existing)), [call], 0, Fine)
               == Alone(file, None, None, Writing(MakeDirs, existing, updated, appended))
  {
    hide Transform;
  }

  lemma {:induction false} Writes(file: Option<string>, call: Call, left: Option<string>, w: Place)
    requires w.Writing? && w.stage.MakeDirs? && file.Some?
    ensures var all := LosingSchedule(left);
            var s, t := Alone(file, None, None, w), Alone(file, file, Some(w.updated), w.(stage := Rename));
            && Run(s, [call], all[3..]) == Run(t, [call], all[7..])
            && (Undamaged(s, [call], all[3..]) <==> Undamaged(t, [call], all[7..]))
  {
    hide Transform, Run, Undamaged;
    var all := LosingSchedule(left);
    var made, saved := Alone(file, None, None, w.(stage := Backup)), Alone(file, file, None, w.(stage := WriteTemp));
    var written := Alone(file, file, Some(w.updated), w.(stage := SetModes));
    Advance(Alone(file, None, None, w), [call], all, 3, made);
    Advance(made, [call], all, 4, saved);
    Advance(saved, [call], all, 5, written);
    Advance(written, [call], all, 6, Alone(file, file, Some(w.updated), w.(stage := Rename)));
  }

  lemma {:induction false} FailsToRename(file: Option<string>, call: Call, left: Option<string>, w: Place)
    requires w.Writing? && file.Some?
    ensures var all := LosingSchedule(left);
            var s, t := Alone(file, file, Some(w.updated), w.(stage := Rename)), State(None, left, file, None, [Finished(Err)], []);
            && Run(s, [call], all[7..]) == Run(t, [call], all[10..])
            && (Undamaged(s, [call], all[7..]) <==> Content(left) == Content(file) && Undamaged(t, [call], all[10..]))
  {
    hide Transform, Run, Undamaged;
    var all := LosingSchedule(left);
    var failed, removed := Alone(file, file, Some(w.updated), w.(stage := RemoveTemp)), Alone(file, file, None, w.(stage := CopyBack));
    Advance(Alone(file, file, Some(w.updated), w.(stage := Rename)), [call], all, 7, failed);
    Advance(failed, [call], all, 8, removed);
    Advance(removed, [call], all, 9, State(None, left, file, None, [Finished(Err)], []));
  }

  lemma {:induction false} NothingDamaged(s: State, calls: seq<Call>)
    requires |s.places| == |calls|
    ensures Undamaged(s, calls, [])
  {
  }

  lemma {:induction false} Advance(s: State, calls: seq<Call>, schedule: Schedule, k: nat, s': State)
    requires |s.places| == |calls| && IsSchedule(schedule, calls) && k < |schedule|
    requires s' == Step(s, calls, schedule[k].0, schedule[k].1)
    ensures IsSchedule(schedule[k..], calls) && IsSchedule(schedule[k + 1..], calls)
    ensures Run(s, calls, schedule[k..]) == Run(s', calls, schedule[k + 1..])
    ensures Undamaged(s, calls, schedule[k..])
        <==> !Damages(s, schedule[k].0, schedule[k].1) && Undamaged(s', calls, schedule[k + 1..])
  {
    hide Step, Damages;
    assert schedule[k..][1..] == schedule[k + 1..];
  }
}
