// The command-line grammar shared by the clip samples' `get_parameters`: at most three
// "-x value" pairs followed by the output file name. The pairs are scanned at positions
// 1, 3, 5, ... while a value follows; a recognised option with a large enough integer
// value is stored, anything else ends the scan with GENERAL_ERROR, and a value that is
// not an integer raises ValueError. Settings stored before an error stay stored.

module ClipOptions {
  import opened Outcomes
  import PyInt

  const A_OK: int := 0
  const GENERAL_ERROR: int := 1

  /** One option: its lower- and upper-case spelling and the smallest value it accepts. */
  datatype OptionSpec = OptionSpec(lower: string, upper: string, minimum: int)

  /** What the parser sets: one value per option of the table, and the file name. */
  datatype Settings = Settings(values: seq<int>, fileName: Option<string>)

  predicate Names(o: OptionSpec, arg: string) {
    arg == o.lower || arg == o.upper
  }

  /** The first option of the `if`/`elif` chain that `arg` selects. */
  function Lookup(table: seq<OptionSpec>, arg: string): (r: Option<nat>)
    ensures r.Some? ==> r.value < |table| && Names(table[r.value], arg)
    ensures r.Some? ==> forall k :: 0 <= k < r.value ==> !Names(table[k], arg)
    ensures r.None? ==> forall k :: 0 <= k < |table| ==> !Names(table[k], arg)
  {
    if |table| == 0 then None
    else if Names(table[0], arg) then Some(0)
    else match Lookup(table[1..], arg)
      case None => None
      case Some(j) => Some(j + 1)
  }

  /** How the scan of the pairs ends, with the option values it leaves behind. */
  datatype LoopEnd = Done(values: seq<int>) | Stopped(values: seq<int>) | Threw(values: seq<int>)

  /** The `for i in range(1, len(sys.argv)-1, 2)` loop, from position `i` on. */
  function Pairs(table: seq<OptionSpec>, argv: seq<string>, i: nat, vals: seq<int>): (e: LoopEnd)
    requires |vals| == |table|
    ensures |e.values| == |table|
    decreases |argv| - i
  {
    if i + 1 >= |argv| then Done(vals)
    else match Lookup(table, argv[i])
      case None => Stopped(vals)
      case Some(j) =>
        match PyInt.Parse(argv[i + 1])
          case None => Threw(vals)
          case Some(p) => if p < table[j].minimum then Stopped(vals) else Pairs(table, argv, i + 2, vals[j := p])
  }

  /** One pass of the loop body at `i`, for an implementation that keeps the values in fields. */
  lemma PairsStep(table: seq<OptionSpec>, argv: seq<string>, i: nat, vals: seq<int>)
    requires |vals| == |table| && i + 1 < |argv|
    ensures Lookup(table, argv[i]).None? ==> Pairs(table, argv, i, vals) == Stopped(vals)
    ensures Lookup(table, argv[i]).Some? && PyInt.Parse(argv[i + 1]).None? ==> Pairs(table, argv, i, vals) == Threw(vals)
    ensures Lookup(table, argv[i]).Some? && PyInt.Parse(argv[i + 1]).Some? ==>
      var j := Lookup(table, argv[i]).value;
      var p := PyInt.Parse(argv[i + 1]).value;
      Pairs(table, argv, i, vals) == if p < table[j].minimum then Stopped(vals) else Pairs(table, argv, i + 2, vals[j := p])
  {
  }

  /** `get_parameters()` on `argv`, from the settings `st` it starts with. */
  function Parse(table: seq<OptionSpec>, argv: seq<string>, st: Settings): (r: (Outcome<int>, Settings))
    requires |st.values| == |table|
    ensures |r.1.values| == |table|
    ensures |argv| < 2 || |argv| > 8 ==> r == (Normal(GENERAL_ERROR), st)
    ensures r.0 == Normal(A_OK) || r.0 == Normal(GENERAL_ERROR) || r.0 == Raised(ValueError)
    ensures r.0 != Normal(A_OK) ==> r.1.fileName == st.fileName
  {
    if 2 > |argv| || 8 < |argv| then (Normal(GENERAL_ERROR), st)
    else match Pairs(table, argv, 1, st.values)
      case Stopped(v) => (Normal(GENERAL_ERROR), st.(values := v))
      case Threw(v) => (Raised(ValueError), st.(values := v))
      case Done(v) =>
        if "-" == argv[|argv| - 1] then (Normal(GENERAL_ERROR), st.(values := v))
        else (Normal(A_OK), Settings(v, Some(argv[|argv| - 1])))
  }

  // ---------------------------------------------------------------------------
  // Reference definitions

  /** The pair at `k` selects an option, carries an integer, and meets that option's minimum. */
  predicate PairValid(table: seq<OptionSpec>, argv: seq<string>, k: nat)
    requires k + 1 < |argv|
  {
    && Lookup(table, argv[k]).Some?
    && PyInt.Parse(argv[k + 1]).Some?
    && PyInt.Parse(argv[k + 1]).value >= table[Lookup(table, argv[k]).value].minimum
  }

  /** Position `k` is one the loop started at `i` visits. */
  predicate Visited(argv: seq<string>, i: nat, k: nat) {
    i <= k && k + 1 < |argv| && (k - i) % 2 == 0
  }

  /** Every pair the loop started at `i` visits is valid. */
  ghost predicate ValidFrom(table: seq<OptionSpec>, argv: seq<string>, i: nat) {
    forall k: nat :: Visited(argv, i, k) ==> PairValid(table, argv, k)
  }

  /** The pair at `k` selects option `j`. */
  predicate PairNames(table: seq<OptionSpec>, argv: seq<string>, k: nat, j: nat) {
    k + 1 < |argv| && Lookup(table, argv[k]) == Some(j)
  }

  // ---------------------------------------------------------------------------
  // The scan

  /** The scan runs to the end exactly when every visited pair is valid. */
  lemma {:induction false} PairsDone(table: seq<OptionSpec>, argv: seq<string>, i: nat, vals: seq<int>)
    requires |vals| == |table|
    ensures Pairs(table, argv, i, vals).Done? <==> ValidFrom(table, argv, i)
    decreases |argv| - i
  {
    if i + 1 < |argv| {
      if PairValid(table, argv, i) {
        var j := Lookup(table, argv[i]).value;
        var p := PyInt.Parse(argv[i + 1]).value;
        PairsDone(table, argv, i + 2, vals[j := p]);
        if ValidFrom(table, argv, i + 2) {
          forall k: nat | Visited(argv, i, k) ensures PairValid(table, argv, k) {
            if k != i {
              assert Visited(argv, i + 2, k);
            }
          }
        }
        if ValidFrom(table, argv, i) {
          forall k: nat | Visited(argv, i + 2, k) ensures PairValid(table, argv, k) {
            assert Visited(argv, i, k);
          }
        }
      } else {
        assert Visited(argv, i, i);
      }
    }
  }

  /**
   * The first invalid pair ends the scan: it raises ValueError when the option is known and its
   * value is not an integer, and stops with GENERAL_ERROR otherwise.
   */
  lemma {:induction false} PairsEndAt(table: seq<OptionSpec>, argv: seq<string>, i: nat, k: nat, vals: seq<int>)
    requires |vals| == |table|
    requires Visited(argv, i, k) && !PairValid(table, argv, k)
    requires forall m: nat :: Visited(argv, i, m) && m < k ==> PairValid(table, argv, m)
    ensures Lookup(table, argv[k]).Some? && PyInt.Parse(argv[k + 1]).None? ==> Pairs(table, argv, i, vals).Threw?
    ensures !(Lookup(table, argv[k]).Some? && PyInt.Parse(argv[k + 1]).None?) ==> Pairs(table, argv, i, vals).Stopped?
    decreases k - i
  {
    if i < k {
      assert Visited(argv, i, i);
      var j := Lookup(table, argv[i]).value;
      var p := PyInt.Parse(argv[i + 1]).value;
      assert Pairs(table, argv, i, vals) == Pairs(table, argv, i + 2, vals[j := p]);
      forall m: nat | Visited(argv, i + 2, m) && m < k ensures PairValid(table, argv, m) {
        assert Visited(argv, i, m);
      }
      PairsEndAt(table, argv, i + 2, k, vals[j := p]);
    }
  }

  /** No pair the loop started at `i` visits selects option `j`. */
  ghost predicate NoneFrom(table: seq<OptionSpec>, argv: seq<string>, i: nat, j: nat) {
    forall m: nat :: Visited(argv, i, m) ==> !PairNames(table, argv, m, j)
  }

  /** No pair after `k` that the loop started at `i` visits selects option `j`. */
  ghost predicate NoneAfter(table: seq<OptionSpec>, argv: seq<string>, i: nat, k: nat, j: nat) {
    forall m: nat :: Visited(argv, i, m) && m > k ==> !PairNames(table, argv, m, j)
  }

  /** An option that no pair selects keeps its starting value through a complete scan. */
  lemma {:induction false} PairsKeep(table: seq<OptionSpec>, argv: seq<string>, i: nat, vals: seq<int>, j: nat)
    requires |vals| == |table| && j < |table|
    requires Pairs(table, argv, i, vals).Done? && NoneFrom(table, argv, i, j)
    ensures Pairs(table, argv, i, vals).values[j] == vals[j]
    decreases |argv| - i
  {
    if i + 1 < |argv| {
      assert Visited(argv, i, i);
      var jj := Lookup(table, argv[i]).value;
      var p := PyInt.Parse(argv[i + 1]).value;
      forall m: nat | Visited(argv, i + 2, m) ensures !PairNames(table, argv, m, j) {
        assert Visited(argv, i, m);
      }
      PairsKeep(table, argv, i + 2, vals[jj := p], j);
    }
  }

  /** Last one wins: after a complete scan an option holds the value of the last pair that selects it. */
  lemma {:induction false} PairsLastWins(table: seq<OptionSpec>, argv: seq<string>, i: nat, vals: seq<int>, j: nat, k: nat)
    requires |vals| == |table| && j < |table|
    requires Pairs(table, argv, i, vals).Done?
    requires Visited(argv, i, k) && PairNames(table, argv, k, j) && NoneAfter(table, argv, i, k, j)
    ensures PyInt.Parse(argv[k + 1]).Some?
    ensures Pairs(table, argv, i, vals).values[j] == PyInt.Parse(argv[k + 1]).value
    decreases |argv| - i
  {
    var jj := Lookup(table, argv[i]).value;
    var p := PyInt.Parse(argv[i + 1]).value;
    var vals' := vals[jj := p];
    assert Pairs(table, argv, i, vals) == Pairs(table, argv, i + 2, vals');
    if k == i {
      forall m: nat | Visited(argv, i + 2, m) ensures !PairNames(table, argv, m, j) {
        assert Visited(argv, i, m) && m > k;
      }
      PairsKeep(table, argv, i + 2, vals', j);
    } else {
      assert Visited(argv, i + 2, k);
      forall m: nat | Visited(argv, i + 2, m) && m > k ensures !PairNames(table, argv, m, j) {
        assert Visited(argv, i, m);
      }
      PairsLastWins(table, argv, i + 2, vals', j, k);
    }
  }

  // ---------------------------------------------------------------------------
  // get_parameters

  /** Every option pair valid, 2 to 8 arguments, and a last argument other than "-". */
  ghost predicate Accepted(table: seq<OptionSpec>, argv: seq<string>) {
    2 <= |argv| <= 8 && ValidFrom(table, argv, 1) && argv[|argv| - 1] != "-"
  }

  /** `get_parameters` returns A_OK exactly for the accepted command lines. */
  lemma ParseAccepts(table: seq<OptionSpec>, argv: seq<string>, st: Settings)
    requires |st.values| == |table|
    ensures Parse(table, argv, st).0 == Normal(A_OK) <==> Accepted(table, argv)
  {
    if 2 <= |argv| <= 8 {
      PairsDone(table, argv, 1, st.values);
    }
  }

  /** On acceptance the file name is the last argument and an option no pair selects keeps its value. */
  lemma ParseSettings(table: seq<OptionSpec>, argv: seq<string>, st: Settings, j: nat)
    requires |st.values| == |table| && j < |table|
    requires Accepted(table, argv)
    ensures Parse(table, argv, st).1.fileName == Some(argv[|argv| - 1])
    ensures NoneFrom(table, argv, 1, j) ==> Parse(table, argv, st).1.values[j] == st.values[j]
  {
    PairsDone(table, argv, 1, st.values);
    if NoneFrom(table, argv, 1, j) {
      PairsKeep(table, argv, 1, st.values, j);
    }
  }

  /** On acceptance an option holds the value of the last pair that selects it. */
  lemma ParseLastWins(table: seq<OptionSpec>, argv: seq<string>, st: Settings, j: nat, k: nat)
    requires |st.values| == |table| && j < |table|
    requires Accepted(table, argv)
    requires Visited(argv, 1, k) && PairNames(table, argv, k, j) && NoneAfter(table, argv, 1, k, j)
    ensures PyInt.Parse(argv[k + 1]).Some?
    ensures Parse(table, argv, st).1.values[j] == PyInt.Parse(argv[k + 1]).value
  {
    PairsDone(table, argv, 1, st.values);
    PairsLastWins(table, argv, 1, st.values, j, k);
  }

  /** With an odd number of arguments the value of the last pair is also taken as the file name. */
  lemma ParseValueDoublesAsFileName(table: seq<OptionSpec>, argv: seq<string>, st: Settings)
    requires |st.values| == |table|
    requires Accepted(table, argv) && |argv| % 2 == 1 && |argv| >= 3
    ensures var k := |argv| - 2;
      && Lookup(table, argv[k]).Some?
      && PyInt.Parse(argv[k + 1]).Some?
      && Parse(table, argv, st).1.fileName == Some(argv[k + 1])
      && Parse(table, argv, st).1.values[Lookup(table, argv[k]).value] == PyInt.Parse(argv[k + 1]).value
  {
    var k := |argv| - 2;
    assert Visited(argv, 1, k);
    var j := Lookup(table, argv[k]).value;
    ParseSettings(table, argv, st, j);
    ParseLastWins(table, argv, st, j, k);
  }

  /** An unrecognised option after valid pairs ends the scan with GENERAL_ERROR. */
  lemma ParseUnknownOption(table: seq<OptionSpec>, argv: seq<string>, st: Settings, k: nat)
    requires |st.values| == |table| && 2 <= |argv| <= 8
    requires Visited(argv, 1, k) && forall m: nat :: Visited(argv, 1, m) && m < k ==> PairValid(table, argv, m)
    requires Lookup(table, argv[k]).None?
    ensures Parse(table, argv, st).0 == Normal(GENERAL_ERROR)
  {
    PairsEndAt(table, argv, 1, k, st.values);
  }

  /** A value below its option's minimum after valid pairs ends the scan with GENERAL_ERROR. */
  lemma ParseBelowMinimum(table: seq<OptionSpec>, argv: seq<string>, st: Settings, k: nat)
    requires |st.values| == |table| && 2 <= |argv| <= 8
    requires Visited(argv, 1, k) && forall m: nat :: Visited(argv, 1, m) && m < k ==> PairValid(table, argv, m)
    requires Lookup(table, argv[k]).Some? && PyInt.Parse(argv[k + 1]).Some?
    requires PyInt.Parse(argv[k + 1]).value < table[Lookup(table, argv[k]).value].minimum
    ensures Parse(table, argv, st).0 == Normal(GENERAL_ERROR)
  {
    PairsEndAt(table, argv, 1, k, st.values);
  }

  /** A value that is not an integer after valid pairs raises ValueError out of `int()`. */
  lemma ParseNotANumber(table: seq<OptionSpec>, argv: seq<string>, st: Settings, k: nat)
    requires |st.values| == |table| && 2 <= |argv| <= 8
    requires Visited(argv, 1, k) && forall m: nat :: Visited(argv, 1, m) && m < k ==> PairValid(table, argv, m)
    requires Lookup(table, argv[k]).Some? && PyInt.Parse(argv[k + 1]).None?
    ensures Parse(table, argv, st).0 == Raised(ValueError)
  {
    PairsEndAt(table, argv, 1, k, st.values);
  }

  /** Every option holds at least its table minimum. */
  predicate AboveMinimums(table: seq<OptionSpec>, vals: seq<int>)
    requires |vals| == |table|
  {
    forall j :: 0 <= j < |table| ==> vals[j] >= table[j].minimum
  }

  /** The scan stores only values that meet their option's minimum, however it ends. */
  lemma {:induction false} PairsKeepMinimums(table: seq<OptionSpec>, argv: seq<string>, i: nat, vals: seq<int>)
    requires |vals| == |table| && AboveMinimums(table, vals)
    ensures AboveMinimums(table, Pairs(table, argv, i, vals).values)
    decreases |argv| - i
  {
    if i + 1 < |argv| && PairValid(table, argv, i) {
      var j := Lookup(table, argv[i]).value;
      var p := PyInt.Parse(argv[i + 1]).value;
      PairsKeepMinimums(table, argv, i + 2, vals[j := p]);
    }
  }

  /** `get_parameters` keeps every option at or above its minimum, whatever the command line. */
  lemma ParseKeepsMinimums(table: seq<OptionSpec>, argv: seq<string>, st: Settings)
    requires |st.values| == |table| && AboveMinimums(table, st.values)
    ensures AboveMinimums(table, Parse(table, argv, st).1.values)
  {
    PairsKeepMinimums(table, argv, 1, st.values);
  }
}
