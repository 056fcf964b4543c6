/**
 * Day 1: the basic fuel a module needs for its mass, the total over all modules, and the
 * runner that checks its arguments, loads the masses and reports the total.
 */
module Day1 {
  import opened Results
  import opened I32Text
  import opened Common
  import opened InputLists
  import opened StrLines

  /** Rust's integer `/ 3`: the quotient rounded toward zero. */
  function TruncDiv3(a: int): (q: int)
    ensures a >= 0 ==> 0 <= q && q * 3 <= a < q * 3 + 3
    ensures a < 0 ==> q <= 0 && q * 3 - 3 < a <= q * 3
  {
    if a >= 0 then a / 3 else -((-a) / 3)
  }

  function Max(a: int, b: int): int { if a >= b then a else b }

  /** The largest fuel any one `i32` mass can need: `i32::MAX / 3 - 2`. */
  const MaxModuleFuel: nat := I32_MAX / 3 - 2

  /**
   * `calculate_basic_fuel_req_for_module`: a third of the mass, rounded toward zero,
   * less two, and never below zero.
   */
  function ModuleFuel(mass: Int32): (fuel: Int32)
    ensures 0 <= fuel <= MaxModuleFuel
    ensures mass >= 9 ==> fuel == mass / 3 - 2
    ensures mass < 9 ==> fuel == 0
  {
    var third := TruncDiv3(mass);
    assert mass >= 0 ==> third == mass / 3;
    assert mass <= I32_MAX && (mass >= 0 ==> mass / 3 <= 715_827_882);
    assert third <= MaxModuleFuel + 2;
    Max(third - 2, 0)
  }

  /** Rounding toward zero and Dafny's Euclidean division give the same fuel for every mass. */
  lemma ModuleFuelEuclidean(mass: Int32)
    ensures ModuleFuel(mass) == Max(mass / 3 - 2, 0)
  {
  }

  /** A heavier module never needs less fuel. */
  lemma ModuleFuelMonotone(lighter: Int32, heavier: Int32)
    requires lighter <= heavier
    ensures ModuleFuel(lighter) <= ModuleFuel(heavier)
  {
  }

  /** The documented masses and their fuel. */
  lemma ModuleFuelExamples()
    ensures ModuleFuel(12) == 2
    ensures ModuleFuel(14) == 2
    ensures ModuleFuel(1969) == 654
    ensures ModuleFuel(100756) == 33583
  {
  }

  /**
   * `calculate_basic_fuel_req_for_modules`: the sum of every module's fuel, added up from
   * the first mass to the last. The sum is unbounded here; see `PartialSumsFitI32` for
   * when Rust's `i32` sum agrees with it.
   */
  function TotalFuel(masses: seq<Int32>): (total: nat)
    ensures total == 0 <==> forall i :: 0 <= i < |masses| ==> masses[i] < 9
    ensures total <= |masses| * MaxModuleFuel
  {
    if masses == [] then 0
    else
      var last := |masses| - 1;
      assert forall i :: 0 <= i < last ==> masses[..last][i] == masses[i];
      assert last * MaxModuleFuel + MaxModuleFuel == |masses| * MaxModuleFuel;
      TotalFuel(masses[..last]) + ModuleFuel(masses[last])
  }

  /** The fuel for two lists of modules together is the sum of the fuel for each. */
  lemma {:induction false} TotalFuelAppend(a: seq<Int32>, b: seq<Int32>)
    ensures TotalFuel(a + b) == TotalFuel(a) + TotalFuel(b)
    decreases |b|
  {
    if b != [] {
      var last := |b| - 1;
      var ab := a + b;
      assert ab[..|ab| - 1] == a + b[..last];
      assert ab[|ab| - 1] == b[last];
      TotalFuelAppend(a, b[..last]);
      assert TotalFuel(ab) == TotalFuel(a + b[..last]) + ModuleFuel(b[last]);
      assert TotalFuel(b) == TotalFuel(b[..last]) + ModuleFuel(b[last]);
    } else {
      assert a + b == a;
    }
  }

  /** The total does not depend on the order of the masses. */
  lemma {:induction false} TotalFuelPermutation(a: seq<Int32>, b: seq<Int32>)
    requires multiset(a) == multiset(b)
    ensures TotalFuel(a) == TotalFuel(b)
    decreases |a|
  {
    if a == [] {
      assert |b| == |multiset(b)| == 0;
    } else {
      var last := |a| - 1;
      var x := a[last];
      assert x in multiset(a);
      var j :| 0 <= j < |b| && b[j] == x;
      RemovePreservesMultiset(a, last, b, j);
      TotalFuelPermutation(a[..last] + a[last + 1..], b[..j] + b[j + 1..]);
      assert a == a[..last] + [x] + a[last + 1..];
      assert b == b[..j] + [x] + b[j + 1..];
      TotalFuelRemove(a[..last], x, a[last + 1..]);
      TotalFuelRemove(b[..j], x, b[j + 1..]);
    }
  }

  /** Taking one mass out of a list takes its fuel out of the total. */
  lemma TotalFuelRemove(before: seq<Int32>, x: Int32, after: seq<Int32>)
    ensures TotalFuel(before + [x] + after) == TotalFuel(before + after) + ModuleFuel(x)
  {
    TotalFuelAppend(before + [x], after);
    TotalFuelAppend(before, [x]);
    TotalFuelAppend(before, after);
    TotalFuelSingle(x);
  }

  lemma TotalFuelSingle(mass: Int32)
    ensures TotalFuel([mass]) == ModuleFuel(mass)
  {
    assert [mass][..0] == [];
  }

  /** Taking the same mass out of two lists with the same masses leaves the same masses. */
  lemma RemovePreservesMultiset(a: seq<Int32>, i: nat, b: seq<Int32>, j: nat)
    requires i < |a| && j < |b| && a[i] == b[j]
    requires multiset(a) == multiset(b)
    ensures multiset(a[..i] + a[i + 1..]) == multiset(b[..j] + b[j + 1..])
  {
    var x := a[i];
    assert a == a[..i] + [x] + a[i + 1..];
    assert b == b[..j] + [x] + b[j + 1..];
    assert multiset(a) == multiset(a[..i]) + multiset{x} + multiset(a[i + 1..]);
    assert multiset(b) == multiset(b[..j]) + multiset{x} + multiset(b[j + 1..]);
    assert multiset(a[..i] + a[i + 1..]) == multiset(a) - multiset{x};
    assert multiset(b[..j] + b[j + 1..]) == multiset(b) - multiset{x};
  }

  /**
   * Rust adds the fuel up in `i32`, one module at a time. When the total fits in `i32`
   * every running sum along the way does too, so the `i32` sum never overflows and
   * equals `TotalFuel`.
   */
  lemma PartialSumsFitI32(masses: seq<Int32>, k: nat)
    requires TotalFuel(masses) <= I32_MAX
    requires k <= |masses|
    ensures InI32(TotalFuel(masses[..k]))
  {
    assert masses == masses[..k] + masses[k..];
    TotalFuelAppend(masses[..k], masses[k..]);
  }

  /** The documented totals. */
  lemma TotalFuelExamples()
    ensures TotalFuel([]) == 0
    ensures TotalFuel([12]) == 2
    ensures TotalFuel([12, 14]) == 4
    ensures TotalFuel([12, 14, 1969]) == 658
    ensures TotalFuel([12, 14, 1969, 100756]) == 34241
  {
    assert [12, 14, 1969, 100756][..3] == [12, 14, 1969];
    assert [12, 14, 1969][..2] == [12, 14];
    assert [12, 14][..1] == [12];
    assert [12][..0] == [];
    ModuleFuelExamples();
  }

  const MissingFileMessage: string :=
    "Please provide the name of the file to load input from relative to the current working directory."
  const ExtraArgumentsMessage: string :=
    "Please provide only the name of the file to load input from relative to the current working directory."

  /** What a successful run reports: how many modules were read and the fuel they need. */
  datatype Report = Report(modules: nat, fuel: nat)

  /**
   * `Day1Runner::run`. `read` stands for `fs::read_to_string`: the file's text, or the
   * I/O failure reading it. Exactly one argument, the file name, is accepted; the count is
   * checked before the file is read.
   */
  function Run(args: seq<string>, read: string -> Result<string, IoCause>): (r: RunResult<Report>)
    ensures |args| == 0 ==> r == Err(FromMessage(MissingFileMessage))
    ensures |args| > 1 ==> r == Err(FromMessage(ExtraArgumentsMessage))
    ensures |args| == 1 && read(args[0]).Err? ==> r == Err(FromIoError(read(args[0]).error))
    ensures |args| == 1 && read(args[0]).Ok? && NewFromStr(read(args[0]).value).Parse().Err? ==>
      r == Err(Error(ParseError(ParseIntTarget))) &&
      Display(r.error) == "Failed to parse input list into a list of numbers"
    ensures r.Ok? <==>
      |args| == 1 && read(args[0]).Ok? && NewFromStr(read(args[0]).value).Parse().Ok?
    ensures r.Ok? ==>
      var masses := NewFromStr(read(args[0]).value).Parse().value;
      r.value == Report(|masses|, TotalFuel(masses))
  {
    if |args| < 1 then Err(FromMessage(MissingFileMessage))
    else if |args| > 1 then Err(FromMessage(ExtraArgumentsMessage))
    else
      match read(args[0])
      case Err(cause) => Err(FromIoError(cause))
      case Ok(text) =>
        match NewFromStr(text).Parse()
        case Err(e) => Err(FromParseIntError(e))
        case Ok(masses) => Ok(Report(|masses|, TotalFuel(masses)))
  }

  /** A wrong argument count is reported without looking at any file. */
  lemma RunChecksArgumentsFirst(args: seq<string>, read1: string -> Result<string, IoCause>,
                                read2: string -> Result<string, IoCause>)
    requires |args| != 1
    ensures Run(args, read1) == Run(args, read2)
    ensures Run(args, read1).Err? && Run(args, read1).error.repr.Other?
  {
  }

  /** The two usage errors are shown with different texts. */
  lemma UsageMessagesDistinct(read: string -> Result<string, IoCause>)
    ensures Display(Run([], read).error) == MissingFileMessage
    ensures Display(Run(["a", "b"], read).error) == ExtraArgumentsMessage
    ensures MissingFileMessage != ExtraArgumentsMessage
  {
  }

  /** A file holding the four documented masses, one per line, reports four modules and 34241. */
  lemma RunSampleFile(path: string, read: string -> Result<string, IoCause>)
    requires read(path) == Ok("12\n14\n1969\n100756")
    ensures Run([path], read) == Ok(Report(4, 34241))
  {
    SampleMassesParse();
    TotalFuelExamples();
  }

  lemma SampleMassesParse()
    ensures New("12\n14\n1969\n100756").Parse() == Ok([12, 14, 1969, 100756])
  {
    SampleMassesText();
    ParseRoundTrip([12, 14, 1969, 100756]);
  }

  lemma SampleMassesText()
    ensures Join(Render([12, 14, 1969, 100756])) == "12\n14\n1969\n100756"
  {
    SampleMassesRender();
    SampleMassesJoin();
  }

  lemma SampleMassesRender()
    ensures Render([12, 14, 1969, 100756]) == ["12", "14", "1969", "100756"]
  {
    RenderFour(12, 14, 1969, 100756);
    SampleDecimalsSmall();
    SampleDecimalsLarge();
  }

  lemma RenderFour(a: Int32, b: Int32, c: Int32, d: Int32)
    ensures Render([a, b, c, d]) == [ToDecimal(a), ToDecimal(b), ToDecimal(c), ToDecimal(d)]
  {
  }

  lemma SampleDecimalsSmall()
    ensures ToDecimal(12) == "12" && ToDecimal(14) == "14"
  {
    assert NatDigits(12) == NatDigits(1) + [DigitChar(2)];
    assert NatDigits(14) == NatDigits(1) + [DigitChar(4)];
  }

  lemma SampleDecimalsLarge()
    ensures ToDecimal(1969) == "1969" && ToDecimal(100756) == "100756"
  {
    Decimal1969();
    Decimal100756();
  }

  lemma Decimal1969()
    ensures ToDecimal(1969) == "1969"
  {
    assert NatDigits(19) == "1" + [DigitChar(9)];
    assert NatDigits(196) == "19" + [DigitChar(6)];
    assert NatDigits(1969) == "196" + [DigitChar(9)];
  }

  lemma Decimal100756()
    ensures ToDecimal(100756) == "100756"
  {
    assert NatDigits(10) == "1" + [DigitChar(0)];
    assert NatDigits(100) == "10" + [DigitChar(0)];
    assert NatDigits(1007) == "100" + [DigitChar(7)];
    assert NatDigits(10075) == "1007" + [DigitChar(5)];
    assert NatDigits(100756) == "10075" + [DigitChar(6)];
  }

  lemma SampleMassesJoin()
    ensures Join(["12", "14", "1969", "100756"]) == "12\n14\n1969\n100756"
  {
    var lines := ["12", "14", "1969", "100756"];
    assert lines[1..] == ["14", "1969", "100756"];
    assert lines[1..][1..] == ["1969", "100756"];
    assert lines[1..][1..][1..] == ["100756"];
  }

  /** A file of words is reported as a failure to parse numbers. */
  lemma RunWordsFile(path: string, read: string -> Result<string, IoCause>)
    requires read(path) == Ok("cat\ndog\nnotanumber")
    ensures Run([path], read).Err?
    ensures Display(Run([path], read).error) == "Failed to parse input list into a list of numbers"
  {
    ParseWordsFails();
  }
}
