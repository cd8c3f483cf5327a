/** The module-level settings of `config` that the modelled operations read or write.
    The starting values are whatever the rest of the program left there, so they are
    constructor parameters rather than constants. */
module ConfigState {
  class Config {
    /** `config.steady_solvers`: the solvers `setup_cfl_control` treats as steady. */
    var steadySolvers: seq<string>
    /** `config.case_boundaries`: boundary names read from the Fluent mesh. */
    var caseBoundaries: seq<string>
    /** `config.set_controlDict_time`: the time controls of controlDict were rewritten. */
    var setControlDictTime: bool
    /** `config.flag_case_success_run`: the solver finished without error. */
    var flagCaseSuccessRun: bool

    constructor(steadySolvers: seq<string>, caseBoundaries: seq<string>,
                setControlDictTime: bool, flagCaseSuccessRun: bool)
      ensures this.steadySolvers == steadySolvers
      ensures this.caseBoundaries == caseBoundaries
      ensures this.setControlDictTime == setControlDictTime
      ensures this.flagCaseSuccessRun == flagCaseSuccessRun
    {
      this.steadySolvers := steadySolvers;
      this.caseBoundaries := caseBoundaries;
      this.setControlDictTime := setControlDictTime;
      this.flagCaseSuccessRun := flagCaseSuccessRun;
    }
  }
}
