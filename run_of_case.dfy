/** `run_of_case`: the time-control rewrite of `system/controlDict` before a run, and
    running the case's solver. The controlDict is an insertion-ordered dictionary, the
    parser, `writeFile` and the shell are reduced to their outcomes. */
module RunOfCase {
  import opened Wrappers
  import opened PyStrings
  import opened PyDict
  import opened ConfigState

  /** A value a controlDict entry holds: a word, an integer or a float. */
  datatype Value = Word(word: string) | Int(number: int) | Float(amount: real)

  /** A sequence of item assignments, `("key", value)`, in program order. */
  type Settings = seq<(string, Value)>

  /** The dictionary after the assignments `s`, applied one after another. */
  function ApplySettings(d: Dict<Value>, s: Settings): Dict<Value>
    decreases |s|
  {
    if s == [] then d else Set(ApplySettings(d, s[..|s| - 1]), s[|s| - 1].0, s[|s| - 1].1)
  }

  /** `v in names` for a list of solver names: only a word can be in it. */
  predicate InNames(v: Value, names: seq<string>) {
    v.Word? && v.word in names
  }

  /** `demo_compressible_solver`. */
  const CompressibleDemoSolvers: seq<string> := ["rhoCentralFoam", "sonicFoam"]

  /** The transient time step: `1e-8` for the compressible demo solvers, else `1e-5`. */
  function TimeStep(solver: Value): real {
    if InNames(solver, CompressibleDemoSolvers) then 0.00000001 else 0.00001
  }

  /** The assignments of the steady branch of `setup_cfl_control`. */
  function SteadySettings(maxCo: Value): Settings {
    [("adjustTimeStep", Word("yes")), ("maxCo", maxCo), ("startTime", Int(0)),
     ("endTime", Int(10)), ("stopAt", Word("endTime")), ("writeInterval", Int(5)),
     ("deltaT", Int(1))]
  }

  /** The assignments of the transient branch, `deltaT` written twice. */
  function TransientSettings(maxCo: Value, dt: real): Settings {
    [("adjustTimeStep", Word("yes")), ("maxCo", maxCo), ("startTime", Int(0)),
     ("deltaT", Float(dt)), ("endTime", Float(dt * 10.0)), ("stopAt", Word("endTime")),
     ("writeInterval", Int(2)), ("deltaT", Float(dt))]
  }

  /** The assignments `setup_cfl_control` makes for `solver`. */
  function CflSettings(solver: Value, steadySolvers: seq<string>, maxCo: Value): Settings {
    if InNames(solver, steadySolvers) then SteadySettings(maxCo)
    else TransientSettings(maxCo, TimeStep(solver))
  }

  /** The assignments of `setup_cfl_control_2`, whatever the solver. */
  function FixedSettings(maxCo: Value): Settings {
    [("adjustTimeStep", Word("yes")), ("maxCo", maxCo), ("startTime", Int(0)),
     ("endTime", Int(2)), ("stopAt", Word("endTime")), ("writeInterval", Int(1)),
     ("deltaT", Int(1))]
  }

  /** The keys both setup functions assign. */
  const TimeControlKeys: seq<string> :=
    ["adjustTimeStep", "maxCo", "startTime", "endTime", "stopAt", "writeInterval", "deltaT"]

  /** `control_dict[key] = value` on the parsed `system/controlDict`. The ghost
      parameters carry what it was read as and the assignments made so far. */
  method Assign(d: Dict<Value>, key: string, value: Value, ghost parsed: Dict<Value>, ghost log: Settings)
    returns (d': Dict<Value>, ghost log': Settings)
    requires d == ApplySettings(parsed, log)
    ensures d' == Set(d, key, value) && log' == log + [(key, value)]
    ensures d' == ApplySettings(parsed, log')
  {
    d' := Set(d, key, value);
    log' := log + [(key, value)];
    assert log'[..|log'| - 1] == log;
  }

  /** The steady branch of `setup_cfl_control`. */
  method AssignSteady(d: Dict<Value>, maxCo: Value) returns (d': Dict<Value>)
    ensures d' == ApplySettings(d, SteadySettings(maxCo))
  {
    ghost var log: Settings := [];
    d' := d;
    d', log := Assign(d', "adjustTimeStep", Word("yes"), d, log);
    d', log := Assign(d', "maxCo", maxCo, d, log);
    d', log := Assign(d', "startTime", Int(0), d, log);
    d', log := Assign(d', "endTime", Int(10), d, log);
    d', log := Assign(d', "stopAt", Word("endTime"), d, log);
    d', log := Assign(d', "writeInterval", Int(5), d, log);
    d', log := Assign(d', "deltaT", Int(1), d, log);
    assert log == SteadySettings(maxCo);
  }

  /** The transient branch of `setup_cfl_control`. */
  method AssignTransient(d: Dict<Value>, solver: Value, maxCo: Value) returns (d': Dict<Value>)
    ensures d' == ApplySettings(d, TransientSettings(maxCo, TimeStep(solver)))
  {
    ghost var log: Settings := [];
    d' := d;
    d', log := Assign(d', "adjustTimeStep", Word("yes"), d, log);
    d', log := Assign(d', "maxCo", maxCo, d, log);
    d', log := Assign(d', "startTime", Int(0), d, log);
    var dt: real;
    if InNames(solver, CompressibleDemoSolvers) {
      dt := 0.00000001;
    } else {
      dt := 0.00001;
    }
    assert dt == TimeStep(solver);
    d', log := Assign(d', "deltaT", Float(dt), d, log);
    d', log := Assign(d', "endTime", Float(dt * 10.0), d, log);
    d', log := Assign(d', "stopAt", Word("endTime"), d, log);
    d', log := Assign(d', "writeInterval", Int(2), d, log);
    assert log + [("deltaT", Float(dt))] == TransientSettings(maxCo, dt);
    if InNames(solver, CompressibleDemoSolvers) {
      d', log := Assign(d', "deltaT", Float(0.00000001), d, log);
    } else {
      d', log := Assign(d', "deltaT", Float(0.00001), d, log);
    }
  }

  /** The assignments of `setup_cfl_control_2`. */
  method AssignFixed(d: Dict<Value>, maxCo: Value) returns (d': Dict<Value>)
    ensures d' == ApplySettings(d, FixedSettings(maxCo))
  {
    ghost var log: Settings := [];
    d' := d;
    d', log := Assign(d', "adjustTimeStep", Word("yes"), d, log);
    d', log := Assign(d', "maxCo", maxCo, d, log);
    d', log := Assign(d', "startTime", Int(0), d, log);
    d', log := Assign(d', "endTime", Int(2), d, log);
    d', log := Assign(d', "stopAt", Word("endTime"), d, log);
    d', log := Assign(d', "writeInterval", Int(1), d, log);
    d', log := Assign(d', "deltaT", Int(1), d, log);
    assert log == FixedSettings(maxCo);
  }

  /** `setup_cfl_control`. `parsed` is the dictionary `ParsedParameterFile` reads, `None`
      when reading fails; `writeOk` is whether `writeFile` succeeds. `written` is the
      dictionary handed to `writeFile`. A failed read, a missing `application` entry or
      a failed write returns `False`; only a successful write sets
      `config.set_controlDict_time`. */
  method SetupCflControl(cfg: Config, parsed: Option<Dict<Value>>, maxCo: Value, writeOk: bool)
    returns (ok: bool, written: Option<Dict<Value>>)
    modifies cfg
    ensures written == if parsed.None? || "application" !in Keys(parsed.value) then None
                       else Some(ApplySettings(parsed.value,
                         CflSettings(Get(parsed.value, "application").value, cfg.steadySolvers, maxCo)))
    ensures ok <==> written.Some? && writeOk
    ensures cfg.setControlDictTime == (ok || old(cfg.setControlDictTime))
    ensures cfg.steadySolvers == old(cfg.steadySolvers)
    ensures cfg.caseBoundaries == old(cfg.caseBoundaries)
    ensures cfg.flagCaseSuccessRun == old(cfg.flagCaseSuccessRun)
  {
    if parsed.None? {
      return false, None;
    }
    var controlDict := parsed.value;
    var application := Get(controlDict, "application");
    if application.None? {
      return false, None;
    }
    var solver := application.value;
    if InNames(solver, cfg.steadySolvers) {
      controlDict := AssignSteady(controlDict, maxCo);
    } else {
      controlDict := AssignTransient(controlDict, solver, maxCo);
    }
    written := Some(controlDict);
    if writeOk {
      cfg.setControlDictTime := true;
      ok := true;
    } else {
      ok := false;
    }
  }

  /** `setup_cfl_control_2`: the fixed assignments, without reading `application`.
      Returns `False` when reading or writing fails; it sets no configuration flag. */
  method SetupCflControl2(parsed: Option<Dict<Value>>, maxCo: Value, writeOk: bool)
    returns (ok: bool, written: Option<Dict<Value>>)
    ensures written == if parsed.None? then None else Some(ApplySettings(parsed.value, FixedSettings(maxCo)))
    ensures ok <==> parsed.Some? && writeOk
  {
    if parsed.None? {
      return false, None;
    }
    var controlDict := AssignFixed(parsed.value, maxCo);
    written := Some(controlDict);
    ok := writeOk;
  }

  // ---------------------------------------------------------------------------
  // Properties of the assignments
  // ---------------------------------------------------------------------------

  /** The last assignment to a key decides its value. */
  lemma {:induction false} LastAssignmentWins(d: Dict<Value>, s: Settings, n: nat)
    requires n < |s|
    requires forall j :: n < j < |s| ==> s[j].0 != s[n].0
    ensures Get(ApplySettings(d, s), s[n].0) == Some(s[n].1)
    decreases |s|
  {
    var init := s[..|s| - 1];
    SetGet(ApplySettings(d, init), s[|s| - 1].0, s[|s| - 1].1, s[n].0);
    if n < |s| - 1 {
      assert init[n] == s[n];
      LastAssignmentWins(d, init, n);
    }
  }

  /** A key nothing assigns keeps its value. */
  lemma {:induction false} UnassignedKept(d: Dict<Value>, s: Settings, k: string)
    requires forall j :: 0 <= j < |s| ==> s[j].0 != k
    ensures Get(ApplySettings(d, s), k) == Get(d, k)
    decreases |s|
  {
    if s != [] {
      SetGet(ApplySettings(d, s[..|s| - 1]), s[|s| - 1].0, s[|s| - 1].1, k);
      UnassignedKept(d, s[..|s| - 1], k);
    }
  }

  /** Assignments keep the existing entries in place and the keys unique; new keys go
      after them. */
  lemma {:induction false} AssignmentsKeepOrder(d: Dict<Value>, s: Settings)
    ensures Keys(d) <= Keys(ApplySettings(d, s))
    ensures UniqueKeys(d) ==> UniqueKeys(ApplySettings(d, s))
    decreases |s|
  {
    if s != [] {
      var before := ApplySettings(d, s[..|s| - 1]);
      AssignmentsKeepOrder(d, s[..|s| - 1]);
      SetKeys(before, s[|s| - 1].0, s[|s| - 1].1);
      if UniqueKeys(d) {
        SetUnique(before, s[|s| - 1].0, s[|s| - 1].1);
      }
    }
  }

  /** What the steady branch leaves under key `k`, `None` for a key it does not
      assign: time 10 in unit steps, written every 5. */
  function SteadyEntry(k: string, maxCo: Value): Option<Value> {
    if k == "adjustTimeStep" then Some(Word("yes"))
    else if k == "maxCo" then Some(maxCo)
    else if k == "startTime" then Some(Int(0))
    else if k == "stopAt" then Some(Word("endTime"))
    else if k == "endTime" then Some(Int(10))
    else if k == "writeInterval" then Some(Int(5))
    else if k == "deltaT" then Some(Int(1))
    else None
  }

  /** What the transient branch leaves under key `k` for time step `dt`: ten steps,
      written every 2. */
  function TransientEntry(k: string, maxCo: Value, dt: real): Option<Value> {
    if k == "adjustTimeStep" then Some(Word("yes"))
    else if k == "maxCo" then Some(maxCo)
    else if k == "startTime" then Some(Int(0))
    else if k == "stopAt" then Some(Word("endTime"))
    else if k == "endTime" then Some(Float(10.0 * dt))
    else if k == "writeInterval" then Some(Int(2))
    else if k == "deltaT" then Some(Float(dt))
    else None
  }

  /** What `setup_cfl_control` leaves under key `k`: the steady entries for a steady
      solver, otherwise the transient ones with a step of `1e-8` for the compressible
      demo solvers and `1e-5` for every other. */
  function CflEntry(k: string, solver: Value, steadySolvers: seq<string>, maxCo: Value): Option<Value> {
    if InNames(solver, steadySolvers) then SteadyEntry(k, maxCo)
    else if solver.Word? && solver.word in ["rhoCentralFoam", "sonicFoam"] then
      TransientEntry(k, maxCo, 0.00000001)
    else TransientEntry(k, maxCo, 0.00001)
  }

  /** What `setup_cfl_control_2` leaves under key `k`, whatever the solver: time 2 in
      unit steps, written every step. */
  function FixedEntry(k: string, maxCo: Value): Option<Value> {
    if k == "adjustTimeStep" then Some(Word("yes"))
    else if k == "maxCo" then Some(maxCo)
    else if k == "startTime" then Some(Int(0))
    else if k == "stopAt" then Some(Word("endTime"))
    else if k == "endTime" then Some(Int(2))
    else if k == "writeInterval" then Some(Int(1))
    else if k == "deltaT" then Some(Int(1))
    else None
  }

  /** The steady assignments give every key its `SteadyEntry` and leave the others. */
  lemma {:induction false} SteadySettingsMeetEntries(d: Dict<Value>, maxCo: Value, k: string)
    ensures Get(ApplySettings(d, SteadySettings(maxCo)), k) ==
              if SteadyEntry(k, maxCo).Some? then SteadyEntry(k, maxCo) else Get(d, k)
  {
    if k in ["adjustTimeStep", "maxCo", "startTime"] {
      SteadyStartMeetsEntries(d, maxCo, k);
    } else {
      SteadyRestMeetsEntries(d, maxCo, k);
    }
  }

  lemma {:induction false} SteadyStartMeetsEntries(d: Dict<Value>, maxCo: Value, k: string)
    requires k in ["adjustTimeStep", "maxCo", "startTime"]
    ensures Get(ApplySettings(d, SteadySettings(maxCo)), k) == SteadyEntry(k, maxCo)
  {
    var s := SteadySettings(maxCo);
    if k == "adjustTimeStep" {
      LastAssignmentWins(d, s, 0);
    } else if k == "maxCo" {
      LastAssignmentWins(d, s, 1);
    } else {
      LastAssignmentWins(d, s, 2);
    }
  }

  lemma {:induction false} SteadyRestMeetsEntries(d: Dict<Value>, maxCo: Value, k: string)
    requires k !in ["adjustTimeStep", "maxCo", "startTime"]
    ensures Get(ApplySettings(d, SteadySettings(maxCo)), k) ==
              if SteadyEntry(k, maxCo).Some? then SteadyEntry(k, maxCo) else Get(d, k)
  {
    var s := SteadySettings(maxCo);
    if k == "endTime" {
      LastAssignmentWins(d, s, 3);
    } else if k == "stopAt" {
      LastAssignmentWins(d, s, 4);
    } else if k == "writeInterval" {
      LastAssignmentWins(d, s, 5);
    } else if k == "deltaT" {
      LastAssignmentWins(d, s, 6);
    } else {
      UnassignedKept(d, s, k);
    }
  }

  /** The transient assignments give every key its `TransientEntry`, the second
      `deltaT` overriding the first, and leave the others. */
  lemma {:induction false} TransientSettingsMeetEntries(d: Dict<Value>, maxCo: Value, dt: real, k: string)
    ensures Get(ApplySettings(d, TransientSettings(maxCo, dt)), k) ==
              if TransientEntry(k, maxCo, dt).Some? then TransientEntry(k, maxCo, dt) else Get(d, k)
  {
    if k in ["adjustTimeStep", "maxCo", "startTime"] {
      TransientStartMeetsEntries(d, maxCo, dt, k);
    } else {
      TransientRestMeetsEntries(d, maxCo, dt, k);
    }
  }

  lemma {:induction false} TransientStartMeetsEntries(d: Dict<Value>, maxCo: Value, dt: real, k: string)
    requires k in ["adjustTimeStep", "maxCo", "startTime"]
    ensures Get(ApplySettings(d, TransientSettings(maxCo, dt)), k) == TransientEntry(k, maxCo, dt)
  {
    var s := TransientSettings(maxCo, dt);
    if k == "adjustTimeStep" {
      LastAssignmentWins(d, s, 0);
    } else if k == "maxCo" {
      LastAssignmentWins(d, s, 1);
    } else {
      LastAssignmentWins(d, s, 2);
    }
  }

  lemma {:induction false} TransientRestMeetsEntries(d: Dict<Value>, maxCo: Value, dt: real, k: string)
    requires k !in ["adjustTimeStep", "maxCo", "startTime"]
    ensures Get(ApplySettings(d, TransientSettings(maxCo, dt)), k) ==
              if TransientEntry(k, maxCo, dt).Some? then TransientEntry(k, maxCo, dt) else Get(d, k)
  {
    var s := TransientSettings(maxCo, dt);
    if k == "endTime" {
      LastAssignmentWins(d, s, 4);
    } else if k == "stopAt" {
      LastAssignmentWins(d, s, 5);
    } else if k == "writeInterval" {
      LastAssignmentWins(d, s, 6);
    } else if k == "deltaT" {
      LastAssignmentWins(d, s, 7);
    } else {
      UnassignedKept(d, s, k);
    }
  }

  /** The assignments of `setup_cfl_control` give every key its `CflEntry` and leave
      every other key, `application` included, as read. */
  lemma {:induction false} CflSettingsMeetEntries(d: Dict<Value>, solver: Value, steadySolvers: seq<string>, maxCo: Value, k: string)
    ensures Get(ApplySettings(d, CflSettings(solver, steadySolvers, maxCo)), k) ==
              if CflEntry(k, solver, steadySolvers, maxCo).Some? then CflEntry(k, solver, steadySolvers, maxCo)
              else Get(d, k)
  {
    if InNames(solver, steadySolvers) {
      SteadySettingsMeetEntries(d, maxCo, k);
    } else {
      TransientSettingsMeetEntries(d, maxCo, TimeStep(solver), k);
    }
  }

  /** The assignments of `setup_cfl_control_2` give every key its `FixedEntry` and leave
      every other key as read. */
  lemma {:induction false} FixedSettingsMeetEntries(d: Dict<Value>, maxCo: Value, k: string)
    ensures Get(ApplySettings(d, FixedSettings(maxCo)), k) ==
              if FixedEntry(k, maxCo).Some? then FixedEntry(k, maxCo) else Get(d, k)
  {
    if k in ["adjustTimeStep", "maxCo", "startTime"] {
      FixedStartMeetsEntries(d, maxCo, k);
    } else {
      FixedRestMeetsEntries(d, maxCo, k);
    }
  }

  lemma {:induction false} FixedStartMeetsEntries(d: Dict<Value>, maxCo: Value, k: string)
    requires k in ["adjustTimeStep", "maxCo", "startTime"]
    ensures Get(ApplySettings(d, FixedSettings(maxCo)), k) == FixedEntry(k, maxCo)
  {
    var s := FixedSettings(maxCo);
    if k == "adjustTimeStep" {
      LastAssignmentWins(d, s, 0);
    } else if k == "maxCo" {
      LastAssignmentWins(d, s, 1);
    } else {
      LastAssignmentWins(d, s, 2);
    }
  }

  lemma {:induction false} FixedRestMeetsEntries(d: Dict<Value>, maxCo: Value, k: string)
    requires k !in ["adjustTimeStep", "maxCo", "startTime"]
    ensures Get(ApplySettings(d, FixedSettings(maxCo)), k) ==
              if FixedEntry(k, maxCo).Some? then FixedEntry(k, maxCo) else Get(d, k)
  {
    var s := FixedSettings(maxCo);
    if k == "endTime" {
      LastAssignmentWins(d, s, 3);
    } else if k == "stopAt" {
      LastAssignmentWins(d, s, 4);
    } else if k == "writeInterval" {
      LastAssignmentWins(d, s, 5);
    } else if k == "deltaT" {
      LastAssignmentWins(d, s, 6);
    } else {
      UnassignedKept(d, s, k);
    }
  }

  // ---------------------------------------------------------------------------
  // case_run
  // ---------------------------------------------------------------------------

  const ApplicationWord: string := "application"

  /** The solver `case_run` reads from the text of controlDict: from the end of the first
      `application` to the next `;`, stripped, with Python's `find` and slicing. */
  function CaseSolver(content: string): string {
    Strip(SolverText(content))
  }

  /** The slice `content[start_index:end_index]` the solver is stripped from. */
  function SolverText(content: string): string {
    var start := PyFind(content, ApplicationWord, 0) + |ApplicationWord|;
    PySlice(content, start, PyFind(content, ";", start))
  }

  /** The shell command that runs the case, output redirected to `case_run.log`. */
  function RunCommand(solver: string, casePath: string): string {
    solver + " -case " + casePath + " > " + casePath + "/case_run.log"
  }

  /** What the shell reports: return code, standard output and standard error. */
  datatype Outcome = Outcome(code: int, stdout: string, stderr: string)

  /** What `case_run` returns: `False`, or a string. */
  datatype Reply = False | Text(text: string)

  const SuccessReply: string := "case run success."

  /** `case_run`. `content` is the text of controlDict, `None` when reading fails; `run`
      is the shell. */
  method CaseRun(cfg: Config, casePath: string, content: Option<string>, run: string -> Outcome)
    returns (reply: Reply, command: Option<string>)
    modifies cfg
    ensures content.None? ==> reply == False && command.None?
    ensures content.Some? ==> command == Some(RunCommand(CaseSolver(content.value), casePath))
    ensures content.Some? && run(command.value).code != 0 ==> reply == Text(run(command.value).stderr)
    ensures content.Some? && run(command.value).code == 0 ==> reply == Text(SuccessReply)
    ensures cfg.flagCaseSuccessRun ==
              ((content.Some? && run(command.value).code == 0) || old(cfg.flagCaseSuccessRun))
    ensures cfg.steadySolvers == old(cfg.steadySolvers)
    ensures cfg.caseBoundaries == old(cfg.caseBoundaries)
    ensures cfg.setControlDictTime == old(cfg.setControlDictTime)
  {
    if content.None? {
      return False, None;
    }
    var text := content.value;
    var startIndex := PyFind(text, ApplicationWord, 0) + |ApplicationWord|;
    var endIndex := PyFind(text, ";", startIndex);
    var solver := Strip(PySlice(text, startIndex, endIndex));
    command := Some(RunCommand(solver, casePath));
    var output := run(command.value);
    if output.code != 0 {
      reply := Text(output.stderr);
    } else {
      cfg.flagCaseSuccessRun := true;
      reply := Text(SuccessReply);
    }
  }

  /** `;` occurs at `j` exactly where the character there is `;`. */
  lemma {:induction false} SemicolonAt(s: string, j: nat)
    ensures OccursAt(s, ";", j) <==> j < |s| && s[j] == ';'
  {
    if j < |s| {
      assert s[j..j + 1] == [s[j]];
    }
  }

  /** The solver is stripped from the text between the first `application` and the
      next `;`. */
  lemma {:induction false} SolverTextBetween(content: string, a: nat, e: nat)
    requires OccursAt(content, ApplicationWord, a)
    requires forall j :: 0 <= j < a ==> !OccursAt(content, ApplicationWord, j)
    requires a + |ApplicationWord| <= e < |content| && content[e] == ';'
    requires forall j :: a + |ApplicationWord| <= j < e ==> content[j] != ';'
    ensures SolverText(content) == content[a + |ApplicationWord|..e]
  {
    FindFromFirst(content, ApplicationWord, 0, a);
    SemicolonAt(content, e);
    forall j | a + |ApplicationWord| <= j < e ensures !OccursAt(content, ";", j) {
      SemicolonAt(content, j);
    }
    FindFromFirst(content, ";", a + |ApplicationWord|, e);
  }

  /** Without `application`, `find` gives -1 and the slice starts at index 10 anyway: the
      missing keyword goes unnoticed and the solver is read from there. */
  lemma {:induction false} SolverTextWithoutApplication(content: string, e: nat)
    requires forall j :: 0 <= j ==> !OccursAt(content, ApplicationWord, j)
    requires |ApplicationWord| - 1 <= e < |content| && content[e] == ';'
    requires forall j :: |ApplicationWord| - 1 <= j < e ==> content[j] != ';'
    ensures SolverText(content) == content[|ApplicationWord| - 1..e]
  {
    SemicolonAt(content, e);
    forall j | |ApplicationWord| - 1 <= j < e ensures !OccursAt(content, ";", j) {
      SemicolonAt(content, j);
    }
    FindFromFirst(content, ";", |ApplicationWord| - 1, e);
  }

  /** Without a `;` after `application`, `find` gives -1 and the slice stops before the
      last character of the text. */
  lemma {:induction false} SolverTextUnterminated(content: string, a: nat)
    requires OccursAt(content, ApplicationWord, a)
    requires forall j :: 0 <= j < a ==> !OccursAt(content, ApplicationWord, j)
    requires a + |ApplicationWord| < |content|
    requires forall j :: a + |ApplicationWord| <= j < |content| ==> content[j] != ';'
    ensures SolverText(content) == content[a + |ApplicationWord|..|content| - 1]
  {
    FindFromFirst(content, ApplicationWord, 0, a);
    forall j | a + |ApplicationWord| <= j ensures !OccursAt(content, ";", j) {
      SemicolonAt(content, j);
    }
    assert PyFind(content, ";", a + |ApplicationWord|) == -1;
  }
}
