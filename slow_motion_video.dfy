// samples/Windows/slowMotionVideo.py: the recording options and `get_parameters`.
// The module-level globals `recordTime`, `bitRate`, `frameRate` and `fileName` are the
// fields of one `Options` object; `sys.argv` is a parameter.

module SlowMotionVideo {
  import opened Outcomes
  import CO = ClipOptions
  import PyInt

  const DEFAULT_PLAYBACK_FRAME_RATE: int := 25
  const DEFAULT_RECORD_DURATION: int := 20
  /** `int(ClipPlaybackDefaults.BITRATE_DEFAULT / 3)` with a default bit rate of 1000000. */
  const CLIP_PLAYBACK_BITRATE: int := 1000000 / 3

  /** The options `-t`, `-b` and `-f`, in the order of the `if`/`elif` chain. */
  const Table: seq<CO.OptionSpec> := [
    CO.OptionSpec("-t", "-T", 1),
    CO.OptionSpec("-b", "-B", 1000),
    CO.OptionSpec("-f", "-F", 1)]

  /** Which option of the table an argument selects. */
  lemma LookupTable(arg: string)
    ensures CO.Lookup(Table, arg) ==
      if arg == "-t" || arg == "-T" then Some(0)
      else if arg == "-b" || arg == "-B" then Some(1)
      else if arg == "-f" || arg == "-F" then Some(2)
      else None
  {
    assert Table[1..][1..][1..] == [];
  }

  class Options {
    var recordTime: int
    var bitRate: int
    var frameRate: int
    var fileName: Option<string>

    /** The values the `__main__` block assigns before `main()` runs. */
    constructor()
      ensures recordTime == DEFAULT_RECORD_DURATION && bitRate == CLIP_PLAYBACK_BITRATE
      ensures frameRate == DEFAULT_PLAYBACK_FRAME_RATE && fileName == None
    {
      recordTime := DEFAULT_RECORD_DURATION;
      bitRate := CLIP_PLAYBACK_BITRATE;
      frameRate := DEFAULT_PLAYBACK_FRAME_RATE;
      fileName := None;
    }

    /** The fields as the settings of the shared grammar, in table order. */
    function Snapshot(): (s: CO.Settings)
      reads this
      ensures |s.values| == |Table|
    {
      CO.Settings([recordTime, bitRate, frameRate], fileName)
    }

    /**
     * One pass of the loop body at `i`: the value of a recognised option is stored and the scan
     * goes on, or `get_parameters()` returns GENERAL_ERROR or raises ValueError.
     */
    method ScanPair(argv: seq<string>, i: nat) returns (stop: Option<Outcome<int>>)
      requires i + 1 < |argv|
      modifies this
      ensures fileName == old(fileName)
      ensures stop.None? ==> CO.Pairs(Table, argv, i, old(Snapshot()).values) == CO.Pairs(Table, argv, i + 2, Snapshot().values)
      ensures stop == Some(Normal(CO.GENERAL_ERROR)) ==> CO.Pairs(Table, argv, i, old(Snapshot()).values) == CO.Stopped(Snapshot().values)
      ensures stop == Some(Raised(ValueError)) ==> CO.Pairs(Table, argv, i, old(Snapshot()).values) == CO.Threw(Snapshot().values)
      ensures stop == None || stop == Some(Normal(CO.GENERAL_ERROR)) || stop == Some(Raised(ValueError))
    {
      LookupTable(argv[i]);
      ghost var before := Snapshot().values;
      CO.PairsStep(Table, argv, i, before);
      if "-t" == argv[i] || "-T" == argv[i] {
        var parm := PyInt.Parse(argv[i + 1]);
        if parm.None? {
          return Some(Raised(ValueError));
        }
        if parm.value < 1 {
          return Some(Normal(CO.GENERAL_ERROR));
        }
        recordTime := parm.value;
        assert Snapshot().values == before[0 := parm.value];
      } else if "-b" == argv[i] || "-B" == argv[i] {
        var parm := PyInt.Parse(argv[i + 1]);
        if parm.None? {
          return Some(Raised(ValueError));
        }
        if parm.value < 1000 {
          return Some(Normal(CO.GENERAL_ERROR));
        }
        bitRate := parm.value;
        assert Snapshot().values == before[1 := parm.value];
      } else if "-f" == argv[i] || "-F" == argv[i] {
        var parm := PyInt.Parse(argv[i + 1]);
        if parm.None? {
          return Some(Raised(ValueError));
        }
        if parm.value < 1 {
          return Some(Normal(CO.GENERAL_ERROR));
        }
        frameRate := parm.value;
        assert Snapshot().values == before[2 := parm.value];
      } else {
        return Some(Normal(CO.GENERAL_ERROR));
      }
      return None;
    }

    /** `get_parameters()`: the return code and the new option values are those of the grammar. */
    method GetParameters(argv: seq<string>) returns (r: Outcome<int>)
      modifies this
      ensures (r, Snapshot()) == CO.Parse(Table, argv, old(Snapshot()))
    {
      if 2 > |argv| || 8 < |argv| {
        return Normal(CO.GENERAL_ERROR);
      }
      var i := 1;
      while i < |argv| - 1
        invariant fileName == old(fileName)
        invariant CO.Pairs(Table, argv, 1, old(Snapshot()).values) == CO.Pairs(Table, argv, i, Snapshot().values)
        decreases |argv| - i
      {
        var stop := ScanPair(argv, i);
        if stop.Some? {
          return stop.value;
        }
        i := i + 2;
      }
      if "-" == argv[|argv| - 1] {
        return Normal(CO.GENERAL_ERROR);
      }
      fileName := Some(argv[|argv| - 1]);
      return Normal(CO.A_OK);
    }
  }

  /** A typical command line: a record time and a file name, with the other defaults kept. */
  lemma ExampleRecordTime()
    ensures CO.Parse(Table, ["slowMotionVideo.py", "-t", "30", "clip.h264"],
                     CO.Settings([DEFAULT_RECORD_DURATION, CLIP_PLAYBACK_BITRATE, DEFAULT_PLAYBACK_FRAME_RATE], None))
            == (Normal(CO.A_OK), CO.Settings([30, 333333, 25], Some("clip.h264")))
  {
    var argv := ["slowMotionVideo.py", "-t", "30", "clip.h264"];
    LookupTable("-t");
    PyInt.ParseDecimal(30);
    assert PyInt.Decimal(30) == "30";
    assert PyInt.Parse(argv[2]) == Some(30);
    assert CO.Pairs(Table, argv, 1, [20, 333333, 25]) == CO.Pairs(Table, argv, 3, [30, 333333, 25]);
  }

  /** The defaults meet the minimums, so the options never drop below them. */
  lemma OptionsStayAboveMinimums(argv: seq<string>)
    ensures var st := CO.Settings([DEFAULT_RECORD_DURATION, CLIP_PLAYBACK_BITRATE, DEFAULT_PLAYBACK_FRAME_RATE], None);
      CO.AboveMinimums(Table, CO.Parse(Table, argv, st).1.values)
  {
    CO.ParseKeepsMinimums(Table, argv, CO.Settings([DEFAULT_RECORD_DURATION, CLIP_PLAYBACK_BITRATE, DEFAULT_PLAYBACK_FRAME_RATE], None));
  }
}
