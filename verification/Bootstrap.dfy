/**
 Opening the account store for the first time, or again after a crash between any
 two durable steps.  One process owns the store; each step is one file written,
 installed or removed.  Somebody may also delete the database file.
 */
module Bootstrap {

  import opened Basics

  type Code = nat

  /** How the administrator's record was made; `Shipped` covers `admin`/`admin` and the `pending$` record. */
  datatype AdminRecord = Shipped | SetupCode(code: Code) | Replaced

  /** A legacy auth.json: its bytes, and its administrator when it parses and validates. */
  datatype Legacy = Legacy(bytes: nat, admin: Option<AdminRecord>)

  datatype Pc =
    | Closed
    | WriteMarkerOnly              // the database was there, the marker was not
    | WriteCode(code: Code)        // fresh home: the code file before the database
    | InstallFresh(code: Code)
    | WriteBackup                  // migration: the recovery copy before the database
    | InstallMigrated
    | WriteMarker
    | Inspect                      // database open; is the record a shipped one?
    | RotateCode(code: Code)
    | RotateRecord(code: Code)
    | Serving
    | ForgetCode                   // a real password was committed; drop the code file
    | Refused

  datatype State = State(legacy: Option<Legacy>, backup: Option<nat>, codeFile: Option<Code>, db: Option<AdminRecord>,
                         marker: bool, migrated: bool, pc: Pc)

  /** `Open` and `Inspect` may draw a new setup code; a crash also stands for any failed step. */
  datatype Step = Open(code: Code) | Continue(code: Code) | Crash | NewPassword | DeleteDatabase

  function OpenStep(s: State, code: Code): State {
    if s.db.Some? then s.(pc := if s.marker then Inspect else WriteMarkerOnly)
    else if s.marker then s.(pc := Refused)
    else if s.legacy.None? then s.(pc := WriteCode(code))
    else if s.legacy.value.admin.None? then s.(pc := Refused)
    else if s.backup.None? then s.(pc := WriteBackup)
    else if s.backup == Some(s.legacy.value.bytes) then s.(pc := InstallMigrated)
    else s.(pc := Refused)
  }

  function ContinueStep(s: State, code: Code): State {
    match s.pc
    case WriteMarkerOnly => s.(marker := true, pc := Inspect)
    case WriteCode(c) => s.(codeFile := Some(c), pc := InstallFresh(c))
    case InstallFresh(c) =>
      if s.db.Some? then s.(pc := Refused) else s.(db := Some(SetupCode(c)), pc := WriteMarker)
    case WriteBackup =>
      if s.legacy.None? then s.(pc := Refused) else s.(backup := Some(s.legacy.value.bytes), pc := InstallMigrated)
    case InstallMigrated =>
      if s.db.Some? || s.legacy.None? || s.legacy.value.admin.None? then s.(pc := Refused)
      else s.(db := s.legacy.value.admin, migrated := true, pc := WriteMarker)
    case WriteMarker => s.(marker := true, pc := Inspect)
    case Inspect => s.(pc := if s.db == Some(Shipped) then RotateCode(code) else Serving)
    case RotateCode(c) => s.(codeFile := Some(c), pc := RotateRecord(c))
    case RotateRecord(c) => if s.db.None? then s.(pc := Refused) else s.(db := Some(SetupCode(c)), pc := Serving)
    case ForgetCode => s.(codeFile := None, pc := Serving)
    case _ => s
  }

  predicate Enabled(s: State, e: Step) {
    match e
    case Open(_) => s.pc.Closed?
    case Continue(_) => !s.pc.Closed? && !s.pc.Serving? && !s.pc.Refused?
    case Crash => true
    case NewPassword => s.pc.Serving? && s.db.Some?
    case DeleteDatabase => true
  }

  function Next(s: State, e: Step): State
    requires Enabled(s, e)
  {
    match e
    case Open(code) => OpenStep(s, code)
    case Continue(code) => ContinueStep(s, code)
    case Crash => s.(pc := Closed)
    case NewPassword => s.(db := Some(Replaced), pc := ForgetCode)
    case DeleteDatabase => s.(db := None)
  }

  /**
   A home before its first start: no database and no marker.  It may hold a legacy
   file, whose administrator never had a setup code, a recovery copy and a code file.
   */
  predicate Init(s: State) {
    && s.db.None? && !s.marker && !s.migrated && s.pc.Closed?
    && (s.legacy.Some? && s.legacy.value.admin.Some? ==> !s.legacy.value.admin.value.SetupCode?)
  }

  // ---------------------------------------------------------------- what is promised

  /** An administrator who still has a setup code can read it from the code file. */
  predicate CodeIsReadable(s: State) {
    s.db.Some? && s.db.value.SetupCode? ==> s.codeFile == Some(s.db.value.code)
  }

  /** A migrated home keeps an identical copy of what it was migrated from. */
  predicate CopyIsKept(s: State) {
    s.migrated ==> s.legacy.Some? && s.backup == Some(s.legacy.value.bytes)
  }

  ghost predicate Inv(s: State) {
    && CodeIsReadable(s) && CopyIsKept(s)
    && (s.legacy.Some? && s.legacy.value.admin.Some? ==> !s.legacy.value.admin.value.SetupCode?)
    && (s.pc.WriteCode? || s.pc.InstallFresh? ==> s.db.None? && !s.marker)
    && (s.pc.WriteBackup? || s.pc.InstallMigrated? ==> s.db.None? && !s.marker)
    && (s.pc.WriteBackup? ==> s.backup.None?)
    && (s.pc.InstallFresh? ==> s.codeFile == Some(s.pc.code))
    && (s.pc.InstallMigrated? ==> s.legacy.Some? && s.backup == Some(s.legacy.value.bytes))
    && (s.pc.RotateCode? || s.pc.RotateRecord? ==> s.db.None? || s.db == Some(Shipped))
    && (s.pc.RotateRecord? ==> s.codeFile == Some(s.pc.code))
    && (s.pc.ForgetCode? ==> s.db.None? || s.db == Some(Replaced))
  }

  /** Once initialized, a missing database stays missing: nothing in the program makes a new one. */
  predicate NeverReborn(s: State, t: State) {
    && (s.marker ==> t.marker)
    && (s.marker && s.db.None? ==> t.db.None?)
    && t.legacy == s.legacy && (s.backup.Some? ==> t.backup == s.backup)
  }

  lemma StepKeepsInv(s: State, e: Step)
    requires Inv(s) && Enabled(s, e)
    ensures Inv(Next(s, e)) && NeverReborn(s, Next(s, e))
  {
  }

  ghost predicate Runs(s: State, steps: seq<Step>, t: State)
    decreases |steps|
  {
    if steps == [] then s == t
    else
      var n := |steps| - 1;
      exists mid :: Runs(s, steps[..n], mid) && Enabled(mid, steps[n]) && t == Next(mid, steps[n])
  }

  lemma {:induction false} RunsKeepInv(s: State, steps: seq<Step>, t: State)
    requires Inv(s) && Runs(s, steps, t)
    ensures Inv(t) && NeverReborn(s, t)
    decreases |steps|
  {
    if steps != [] {
      var n := |steps| - 1;
      var mid :| Runs(s, steps[..n], mid) && Enabled(mid, steps[n]) && t == Next(mid, steps[n]);
      RunsKeepInv(s, steps[..n], mid);
      StepKeepsInv(mid, steps[n]);
    }
  }

  /** Over every run with crashes anywhere: no administrator is locked out by a code nobody can read. */
  lemma NoUnknownSetupCode(s: State, steps: seq<Step>, t: State)
    requires Init(s) && Runs(s, steps, t)
    ensures CodeIsReadable(t) && CopyIsKept(t)
  {
    RunsKeepInv(s, steps, t);
  }

  /** A record that is not a shipped one is never changed but by a new password. */
  lemma StepKeepsRecord(s: State, e: Step)
    requires Inv(s) && Enabled(s, e) && s.db.Some? && s.db != Some(Shipped)
    ensures !e.NewPassword? && !e.DeleteDatabase? ==> Next(s, e).db == s.db
    ensures e.NewPassword? ==> Next(s, e).db == Some(Replaced)
  {
  }

  /** Whatever crashes and reopenings there are, an administrator's own password and an unused setup code stay. */
  lemma {:induction false} RecordStays(s: State, steps: seq<Step>, t: State)
    requires Inv(s) && s.db.Some? && s.db != Some(Shipped) && Runs(s, steps, t)
    requires forall i :: 0 <= i < |steps| ==> !steps[i].DeleteDatabase?
    ensures t.db == s.db || t.db == Some(Replaced)
    ensures (forall i :: 0 <= i < |steps| ==> !steps[i].NewPassword?) ==> t.db == s.db
    decreases |steps|
  {
    if steps != [] {
      var n := |steps| - 1;
      var mid :| Runs(s, steps[..n], mid) && Enabled(mid, steps[n]) && t == Next(mid, steps[n]);
      RecordStays(s, steps[..n], mid);
      RunsKeepInv(s, steps[..n], mid);
      StepKeepsRecord(mid, steps[n]);
    }
  }

  // ---------------------------------------------------------------- an opening that is not interrupted

  /** Opening, and continuing until there is an answer: at most seven more steps. */
  function Opened(s: State, code: Code): State
    requires s.pc.Closed?
  {
    Settled(OpenStep(s, code), code, 7)
  }

  function Settled(s: State, code: Code, most: nat): State
    decreases most
  {
    if most == 0 || s.pc.Closed? || s.pc.Serving? || s.pc.Refused? then s
    else Settled(ContinueStep(s, code), code, most - 1)
  }

  lemma {:induction false} SettledIsRun(s: State, code: Code, most: nat) returns (steps: seq<Step>)
    ensures Runs(s, steps, Settled(s, code, most))
    decreases most
  {
    if most == 0 || s.pc.Closed? || s.pc.Serving? || s.pc.Refused? {
      return [];
    }
    var rest := SettledIsRun(ContinueStep(s, code), code, most - 1);
    steps := Prepend(s, Continue(code), rest, Settled(s, code, most));
  }

  lemma {:induction false} Prepend(s: State, e: Step, rest: seq<Step>, t: State) returns (steps: seq<Step>)
    requires Enabled(s, e) && Runs(Next(s, e), rest, t)
    ensures steps == [e] + rest && Runs(s, steps, t)
    decreases |rest|
  {
    steps := [e] + rest;
    if rest == [] {
      assert steps[..0] == [] && Runs(s, [], s);
    } else {
      var n := |rest| - 1;
      var mid :| Runs(Next(s, e), rest[..n], mid) && Enabled(mid, rest[n]) && t == Next(mid, rest[n]);
      var front := Prepend(s, e, rest[..n], mid);
      assert steps[..|steps| - 1] == front && steps[|steps| - 1] == rest[n];
    }
  }

  /** It is a run. */
  lemma OpenedIsRun(s: State, code: Code) returns (steps: seq<Step>)
    requires s.pc.Closed?
    ensures Runs(s, steps, Opened(s, code))
  {
    var rest := SettledIsRun(OpenStep(s, code), code, 7);
    steps := Prepend(s, Open(code), rest, Opened(s, code));
  }

  /** The record after opening: a shipped one is replaced by a setup code, any other is as it was. */
  function Rotated(r: AdminRecord, code: Code): AdminRecord {
    if r == Shipped then SetupCode(code) else r
  }

  lemma Inspects(s: State, code: Code, most: nat)
    requires s.pc.Inspect? && s.db.Some? && most >= 4
    ensures Settled(s, code, most) ==
      s.(pc := Serving, db := Some(Rotated(s.db.value, code)), codeFile := if s.db == Some(Shipped) then Some(code) else s.codeFile)
  {
    assert Settled(s, code, most) == Settled(ContinueStep(s, code), code, most - 1);
    if s.db == Some(Shipped) {
      var a := ContinueStep(s, code);
      assert Settled(a, code, most - 1) == Settled(ContinueStep(a, code), code, most - 2);
      var b := ContinueStep(a, code);
      assert Settled(b, code, most - 2) == Settled(ContinueStep(b, code), code, most - 3);
    }
  }

  lemma MarksAndInspects(s: State, code: Code, most: nat)
    requires (s.pc.WriteMarker? || s.pc.WriteMarkerOnly?) && s.db.Some? && most >= 5
    ensures Settled(s, code, most) ==
      s.(pc := Serving, db := Some(Rotated(s.db.value, code)), marker := true,
         codeFile := if s.db == Some(Shipped) then Some(code) else s.codeFile)
  {
    Inspects(ContinueStep(s, code), code, most - 1);
  }

  lemma InstallsCopy(s: State, code: Code, most: nat)
    requires s.pc.InstallMigrated? && s.db.None? && s.legacy.Some? && s.legacy.value.admin.Some? && most >= 6
    ensures var t := Settled(s, code, most);
      && t.pc == Serving && t.db == Some(Rotated(s.legacy.value.admin.value, code)) && t.marker && t.migrated
      && t.backup == s.backup && t.legacy == s.legacy
  {
    MarksAndInspects(ContinueStep(s, code), code, most - 1);
  }

  lemma StartsFresh(s: State, code: Code, most: nat)
    requires s.pc == WriteCode(code) && s.db.None? && most >= 7
    ensures Settled(s, code, most) == s.(pc := Serving, db := Some(SetupCode(code)), marker := true, codeFile := Some(code))
  {
    var a := ContinueStep(s, code);
    assert Settled(s, code, most) == Settled(a, code, most - 1);
    assert Settled(a, code, most - 1) == Settled(ContinueStep(a, code), code, most - 2);
    MarksAndInspects(ContinueStep(a, code), code, most - 2);
  }

  /** What an opening that is not interrupted comes to, for every home. */
  lemma OpeningComesTo(s: State, code: Code)
    requires s.pc.Closed?
    ensures var t := Opened(s, code);
      // A store that is there is served; a marker it lacks is made.
      && (s.db.Some? ==>
            t == s.(pc := Serving, db := Some(Rotated(s.db.value, code)), marker := true,
                    codeFile := if s.db == Some(Shipped) then Some(code) else s.codeFile))
      // One that is gone is not made again.
      && (s.db.None? && s.marker ==> t == s.(pc := Refused))
      // A fresh home gets a setup code, in the database and in its file.
      && (s.db.None? && !s.marker && s.legacy.None? ==>
            t == s.(pc := Serving, db := Some(SetupCode(code)), codeFile := Some(code), marker := true))
      && (s.db.None? && !s.marker && s.legacy.Some? ==> Migrates(s, t, code))
  {
    var t := OpenStep(s, code);
    match t.pc
    case WriteMarkerOnly => MarksAndInspects(t, code, 7);
    case Inspect => Inspects(t, code, 7);
    case WriteCode(_) => StartsFresh(t, code, 7);
    case WriteBackup => InstallsCopy(ContinueStep(t, code), code, 6);
    case InstallMigrated => InstallsCopy(t, code, 7);
    case _ =>
  }

  /** A sound legacy file is migrated, with a copy, unless another copy is in the way. */
  ghost predicate Migrates(s: State, t: State, code: Code)
    requires s.legacy.Some?
  {
    var sound := s.legacy.value.admin.Some? && (s.backup.None? || s.backup.value == s.legacy.value.bytes);
    && (sound ==>
          && t.pc == Serving && t.db == Some(Rotated(s.legacy.value.admin.value, code)) && t.marker && t.migrated
          && t.backup == Some(s.legacy.value.bytes) && t.legacy == s.legacy)
    && (!sound ==> t == s.(pc := Refused))
  }

  /** A new password makes an end of the setup code. */
  lemma PasswordForgetsCode(s: State, code: Code)
    requires s.pc.Serving? && s.db.Some?
    ensures var t := Settled(Next(s, NewPassword), code, 6);
      t.pc == Serving && t.db == Some(Replaced) && t.codeFile == None
  {
  }

  /** After the marker is durable, however often the store is opened, a lost database is refused. */
  lemma LostDatabaseIsRefused(s: State, steps: seq<Step>, mid: State, more: seq<Step>, t: State, code: Code)
    requires Init(s) && Runs(s, steps, mid) && mid.marker && mid.db.None?
    requires Runs(mid, more, t) && t.pc.Closed?
    ensures t.db.None? && Next(t, Open(code)).pc.Refused?
  {
    RunsKeepInv(s, steps, mid);
    RunsKeepInv(mid, more, t);
  }
}
