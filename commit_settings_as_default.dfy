// samples/Linux/commitSettingsAsDefault.py: `set_run_options`, which reads the one
// optional command-line switch into the global `runOption_useFactoryDefaults`.

module CommitSettingsAsDefault {

  /** `set_run_options()` on `argv` from the option value `current`: the return code and the new value. */
  function RunOptions(argv: seq<string>, current: bool): (r: (int, bool))
    ensures r.0 == 0 || r.0 == 1
    ensures r.0 == 1 <==> |argv| > 1 && argv[1] != "-f" && argv[1] != "-F"
    ensures r.0 == 1 ==> r.1 == current
    ensures r.0 == 0 ==> (r.1 <==> current || (|argv| > 1 && (argv[1] == "-f" || argv[1] == "-F")))
  {
    if 1 < |argv| then
      if "-f" == argv[1] || "-F" == argv[1] then (0, true) else (1, current)
    else (0, current)
  }

  /** Reading the command line a second time changes nothing more. */
  lemma RunOptionsIdempotent(argv: seq<string>, current: bool)
    ensures RunOptions(argv, RunOptions(argv, current).1) == RunOptions(argv, current)
  {
  }

  /** Arguments after the first are never looked at. */
  lemma RunOptionsReadsOnlyFirst(argv: seq<string>, extra: seq<string>, current: bool)
    requires |argv| >= 2
    ensures RunOptions(argv + extra, current) == RunOptions(argv, current)
  {
    assert (argv + extra)[1] == argv[1];
  }

  class RunOptionState {
    var useFactoryDefaults: bool

    /** The `__main__` block starts with the camera's current settings, not the factory ones. */
    constructor()
      ensures !useFactoryDefaults
    {
      useFactoryDefaults := false;
    }

    /** `set_run_options()`: the global changes only on success, and only to `True`. */
    method SetRunOptions(argv: seq<string>) returns (r: int)
      modifies this
      ensures (r, useFactoryDefaults) == RunOptions(argv, old(useFactoryDefaults))
    {
      var factory := useFactoryDefaults;
      if 1 < |argv| {
        if "-f" == argv[1] || "-F" == argv[1] {
          factory := true;
        } else {
          return 1;
        }
      }
      useFactoryDefaults := factory;
      return 0;
    }
  }
}
