/**
 * `InputList`: puzzle input held as one text, read back line by line and converted
 * into `i32` values, all or nothing.
 */
module InputLists {
  import opened Results
  import opened I32Text
  import opened StrLines

  /** The text is stored as given and never changes afterwards. */
  datatype InputList = InputList(raw: string) {

    /** `InputList::raw`: the stored text. */
    function Raw(): string
    {
      raw
    }

    /**
     * `InputList::parse::<i32>`: every line of the text converted in order; the first line
     * that does not convert makes the whole result that line's error.
     */
    function Parse(): (r: Result<seq<Int32>, ParseIntError>)
      ensures r.Ok? <==> AllConvert(Lines(raw))
      ensures r.Ok? ==> |r.value| == |Lines(raw)|
      ensures r.Ok? ==> forall i :: 0 <= i < |r.value| ==> ParseI32(Lines(raw)[i]) == Ok(r.value[i])
      ensures r.Err? ==> exists k :: 0 <= k < |Lines(raw)| && FirstFailure(Lines(raw), k, r.error)
    {
      Collect(Lines(raw))
    }
  }

  /** `InputList::new_from_str`: takes the text as it is. */
  function NewFromStr(raw: string): (list: InputList)
    ensures list.Raw() == raw
  {
    InputList(raw)
  }

  /** `InputList::new`: copies a borrowed text and takes it as it is. */
  function New(raw: string): (list: InputList)
    ensures list.Raw() == raw
  {
    NewFromStr(raw)
  }

  /** Every line converts to an `i32`. */
  predicate AllConvert(lines: seq<string>)
  {
    forall i :: 0 <= i < |lines| ==> ParseI32(lines[i]).Ok?
  }

  /** Line `k` is the first line that does not convert, and it fails with `err`. */
  predicate FirstFailure(lines: seq<string>, k: nat, err: ParseIntError)
    requires k < |lines|
  {
    && ParseI32(lines[k]) == Err(err)
    && forall j :: 0 <= j < k ==> ParseI32(lines[j]).Ok?
  }

  lemma AllConvertCons(lines: seq<string>)
    requires lines != []
    ensures AllConvert(lines) <==> ParseI32(lines[0]).Ok? && AllConvert(lines[1..])
  {
    assert forall i :: 0 < i < |lines| ==> lines[i] == lines[1..][i - 1];
  }

  lemma FirstFailureCons(lines: seq<string>, k: nat, err: ParseIntError)
    requires lines != [] && ParseI32(lines[0]).Ok?
    requires k < |lines| - 1 && FirstFailure(lines[1..], k, err)
    ensures FirstFailure(lines, k + 1, err)
  {
    forall j | 0 <= j < k + 1 ensures ParseI32(lines[j]).Ok? {
      if j > 0 { assert lines[j] == lines[1..][j - 1]; }
    }
  }

  lemma ConvertedCons(lines: seq<string>, v: Int32, vs: seq<Int32>)
    requires lines != [] && ParseI32(lines[0]) == Ok(v) && |vs| == |lines| - 1
    requires forall i :: 0 <= i < |vs| ==> ParseI32(lines[1..][i]) == Ok(vs[i])
    ensures forall i :: 0 <= i < |[v] + vs| ==> ParseI32(lines[i]) == Ok(([v] + vs)[i])
  {
    forall i | 0 <= i < |[v] + vs| ensures ParseI32(lines[i]) == Ok(([v] + vs)[i]) {
      if i > 0 { assert lines[i] == lines[1..][i - 1]; }
    }
  }

  /**
   * `map(str::parse).collect::<Result<Vec<_>, _>>()`: the converted lines in order, or
   * the error of the first line that fails, with no partial list.
   */
  function Collect(lines: seq<string>): (r: Result<seq<Int32>, ParseIntError>)
    ensures r.Ok? <==> AllConvert(lines)
    ensures r.Ok? ==> |r.value| == |lines|
    ensures r.Ok? ==> forall i :: 0 <= i < |r.value| ==> ParseI32(lines[i]) == Ok(r.value[i])
    ensures r.Err? ==> exists k :: 0 <= k < |lines| && FirstFailure(lines, k, r.error)
    decreases |lines|
  {
    if lines == [] then Ok([])
    else
      AllConvertCons(lines);
      match ParseI32(lines[0])
      case Err(e) =>
        assert FirstFailure(lines, 0, e);
        Err(e)
      case Ok(v) =>
        match Collect(lines[1..])
        case Err(e) =>
          var k :| 0 <= k < |lines[1..]| && FirstFailure(lines[1..], k, e);
          FirstFailureCons(lines, k, e);
          Err(e)
        case Ok(vs) =>
          ConvertedCons(lines, v, vs);
          Ok([v] + vs)
  }

  /** The text is kept verbatim whichever constructor made the list. */
  lemma RawVerbatim(raw: string)
    ensures New(raw).Raw() == raw && NewFromStr(raw).Raw() == raw
    ensures New(raw) == NewFromStr(raw)
  {
  }

  /**
   * Writing any `i32` values one per line, as their decimal text joined with `\n`, and
   * parsing that text gives back exactly those values.
   */
  lemma {:induction false} ParseRoundTrip(values: seq<Int32>)
    ensures New(Join(Render(values))).Parse() == Ok(values)
  {
    var lines := Render(values);
    forall i | 0 <= i < |lines| ensures PlainLine(lines[i]) {
      PlainDecimal(values[i]);
    }
    LinesOfJoin(lines);
    var r := New(Join(lines)).Parse();
    forall i | 0 <= i < |values| ensures ParseI32(lines[i]) == Ok(values[i]) {
      ParseToDecimal(values[i]);
    }
    assert r.Ok?;
    assert r.value == values;
  }

  /** The decimal text of each value, in order. */
  function Render(values: seq<Int32>): (lines: seq<string>)
    ensures |lines| == |values|
    ensures forall i :: 0 <= i < |values| ==> lines[i] == ToDecimal(values[i])
  {
    seq(|values|, i requires 0 <= i < |values| => ToDecimal(values[i]))
  }

  /** A rendered `i32` is a non-empty line with no line break characters in it. */
  lemma PlainDecimal(n: Int32)
    ensures PlainLine(ToDecimal(n)) && ToDecimal(n) != []
  {
  }

  /** A text made of plain lines joined with `\n` parses exactly as its lines convert. */
  lemma ParseOfJoin(lines: seq<string>)
    requires forall i :: 0 <= i < |lines| ==> PlainLine(lines[i])
    requires lines != [] ==> lines[|lines| - 1] != []
    ensures New(Join(lines)).Parse() == Collect(lines)
  {
    LinesOfJoin(lines);
  }

  /** The three numbers of the documented example come back in order. */
  lemma ParseNumbersExample()
    ensures New("123\n234\n345").Parse() == Ok([123, 234, 345])
  {
    JoinNumbers();
    ParseJoinedNumbers();
  }

  lemma JoinNumbers()
    ensures Join(["123", "234", "345"]) == "123\n234\n345"
  {
    var numbers := ["123", "234", "345"];
    assert numbers[1..] == ["234", "345"];
    assert numbers[1..][1..] == ["345"];
  }

  lemma ParseJoinedNumbers()
    ensures New(Join(["123", "234", "345"])).Parse() == Ok([123, 234, 345])
  {
    NumbersPlain();
    NumbersCollect();
    ParseOfJoin(["123", "234", "345"]);
  }

  lemma NumbersPlain()
    ensures forall i :: 0 <= i < 3 ==> PlainLine(["123", "234", "345"][i])
  {
    PlainDecimalText("123");
    PlainDecimalText("234");
    PlainDecimalText("345");
  }

  lemma NumbersCollect()
    ensures Collect(["123", "234", "345"]) == Ok([123, 234, 345])
  {
    DecimalExample("123", 123);
    DecimalExample("234", 234);
    DecimalExample("345", 345);
    CollectThree("123", "234", "345", 123, 234, 345);
  }

  lemma CollectThree(a: string, b: string, c: string, x: Int32, y: Int32, z: Int32)
    requires ParseI32(a) == Ok(x) && ParseI32(b) == Ok(y) && ParseI32(c) == Ok(z)
    ensures Collect([a, b, c]) == Ok([x, y, z])
  {
    assert Collect([]) == Ok([]);
    CollectCons(c, [], z, []);
    assert [c] + [] == [c] && [z] + [] == [z];
    CollectCons(b, [c], y, [z]);
    assert [b] + [c] == [b, c] && [y] + [z] == [y, z];
    CollectCons(a, [b, c], x, [y, z]);
    assert [a] + [b, c] == [a, b, c] && [x] + [y, z] == [x, y, z];
  }

  /** A line that converts, in front of lines that all convert, adds its value in front. */
  lemma CollectCons(line: string, rest: seq<string>, v: Int32, vs: seq<Int32>)
    requires ParseI32(line) == Ok(v) && Collect(rest) == Ok(vs)
    ensures Collect([line] + rest) == Ok([v] + vs)
  {
    assert ([line] + rest)[0] == line && ([line] + rest)[1..] == rest;
  }

  lemma PlainDecimalText(s: string)
    requires AllDigits(s)
    ensures PlainLine(s)
  {
    assert '\n' !in s;
  }

  lemma DecimalExample(s: string, n: Int32)
    requires |s| == 3 && AllDigits(s)
    requires DigitValue(s[0]) * 100 + DigitValue(s[1]) * 10 + DigitValue(s[2]) == n
    ensures ParseI32(s) == Ok(n)
  {
    var t := s[1..];
    assert t[1..] == [s[2]];
    assert DecimalValue([s[2]]) == DigitValue(s[2]);
    assert DecimalValue(t) == DigitValue(s[1]) * 10 + DigitValue(s[2]);
    assert Pow10(2) == 100;
    assert DecimalValue(s) == n;
    ParseI32Spec(s);
  }

  /** Words are not numbers: the whole parse fails. */
  lemma ParseWordsFails()
    ensures New("cat\ndog\nnotanumber").Parse().Err?
  {
    JoinWords();
    ParseJoinedWords();
  }

  lemma JoinWords()
    ensures Join(["cat", "dog", "notanumber"]) == "cat\ndog\nnotanumber"
  {
    var words := ["cat", "dog", "notanumber"];
    assert words[1..] == ["dog", "notanumber"];
    assert words[1..][1..] == ["notanumber"];
  }

  lemma ParseJoinedWords()
    ensures New(Join(["cat", "dog", "notanumber"])).Parse().Err?
  {
    var words := ["cat", "dog", "notanumber"];
    WordsPlain(words);
    ParseOfJoin(words);
    CollectFirstFails(words);
  }

  lemma WordsPlain(words: seq<string>)
    requires words == ["cat", "dog", "notanumber"]
    ensures forall i :: 0 <= i < |words| ==> PlainLine(words[i])
    ensures words[|words| - 1] != []
  {
  }

  lemma CollectFirstFails(words: seq<string>)
    requires words != [] && words[0] == "cat"
    ensures Collect(words).Err?
  {
    assert !IsDigit(words[0][0]);
    ParseI32Spec(words[0]);
  }

  /** Splitting three words yields those words and nothing after them. */
  lemma LinesOfWordsExample()
    ensures Lines(New("cat\ndog\nnumber").Raw()) == ["cat", "dog", "number"]
  {
    var words := ["cat", "dog", "number"];
    assert Join(words) == "cat\ndog\nnumber" by {
      assert words[1..] == ["dog", "number"];
      assert words[1..][1..] == ["number"];
    }
    LinesOfJoin(words);
  }
}
