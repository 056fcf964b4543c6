/**
 * `str::lines` from Rust's standard library as the input list uses it: the text is cut
 * at every `\n`, an empty piece after a final `\n` is not produced, and one trailing
 * `\r` is dropped from each piece.
 */
module StrLines {

  /** The index of the first `\n` in `s`, or `|s|` when there is none. */
  function LineEnd(s: string): (i: nat)
    ensures i <= |s|
    ensures i < |s| ==> s[i] == '\n'
    ensures forall k :: 0 <= k < i ==> s[k] != '\n'
  {
    if s == [] || s[0] == '\n' then 0 else 1 + LineEnd(s[1..])
  }

  predicate EndsWithCr(line: string) { line != [] && line[|line| - 1] == '\r' }

  function StripCr(line: string): string
  {
    if EndsWithCr(line) then line[..|line| - 1] else line
  }

  function Lines(s: string): (lines: seq<string>)
    ensures forall i :: 0 <= i < |lines| ==> '\n' !in lines[i]
    decreases |s|
  {
    if s == [] then []
    else
      var i := LineEnd(s);
      if i == |s| then [StripCr(s)]
      else [StripCr(s[..i])] + Lines(s[i + 1..])
  }

  /** The number of `\n` characters in `s`. */
  function NewlineCount(s: string): nat
  {
    multiset(s)['\n']
  }

  /**
   * There is one line per `\n`, plus one for a last line that has no `\n` after it.
   */
  lemma {:induction false} LinesCount(s: string)
    ensures |Lines(s)| == NewlineCount(s) + (if s != [] && s[|s| - 1] != '\n' then 1 else 0)
    decreases |s|
  {
    if s != [] {
      var i := LineEnd(s);
      if i == |s| {
        assert '\n' !in multiset(s);
      } else {
        var rest := s[i + 1..];
        NewlineCountSplit(s, i);
        LinesCount(rest);
        if rest != [] {
          assert s[|s| - 1] == rest[|rest| - 1];
        }
      }
    }
  }

  /** The first `\n` of `s` is one of its newlines, and the rest hold all the others. */
  lemma NewlineCountSplit(s: string, i: nat)
    requires i < |s| && s[i] == '\n'
    requires forall k :: 0 <= k < i ==> s[k] != '\n'
    ensures NewlineCount(s) == 1 + NewlineCount(s[i + 1..])
  {
    assert s == s[..i] + [s[i]] + s[i + 1..];
    assert '\n' !in multiset(s[..i]);
    assert multiset(s) == multiset(s[..i]) + multiset([s[i]]) + multiset(s[i + 1..]);
  }

  /** `lines` joined back with `\n` between them, as a file holding them would read. */
  function Join(lines: seq<string>): string
  {
    if lines == [] then ""
    else if |lines| == 1 then lines[0]
    else lines[0] + "\n" + Join(lines[1..])
  }

  /** A line that survives `Lines` unchanged: no `\n` in it and no `\r` at its end. */
  predicate PlainLine(line: string) { '\n' !in line && !EndsWithCr(line) }

  /**
   * Splitting lines joined with `\n` gives them back, as long as none holds a `\n`,
   * none ends with `\r`, and the last is not empty (an empty last line would leave a
   * trailing `\n`, which produces no line).
   */
  lemma {:induction false} LinesOfJoin(lines: seq<string>)
    requires forall i :: 0 <= i < |lines| ==> PlainLine(lines[i])
    requires lines != [] ==> lines[|lines| - 1] != []
    ensures Lines(Join(lines)) == lines
    decreases |lines|
  {
    if lines != [] {
      var head := lines[0];
      assert PlainLine(head);
      if |lines| == 1 {
        LinesOfLast(head);
      } else {
        LinesOfFirst(head, Join(lines[1..]));
        LinesOfJoin(lines[1..]);
        assert lines == [head] + lines[1..];
      }
    }
  }

  /** Text up to the first `\n` is one line, less one trailing `\r`; the rest is split on its own. */
  lemma LinesOfFirst(head: string, rest: string)
    requires '\n' !in head
    ensures Lines(head + "\n" + rest) == [StripCr(head)] + Lines(rest)
  {
    var s := head + "\n" + rest;
    LineEndAfter(head, rest);
    assert s[..|head|] == head;
    assert s[|head| + 1..] == rest;
  }

  /** Non-empty text with no `\n` is a single line, less one trailing `\r`. */
  lemma LinesOfLast(s: string)
    requires '\n' !in s && s != []
    ensures Lines(s) == [StripCr(s)]
  {
  }

  lemma LineEndAfter(head: string, rest: string)
    requires '\n' !in head
    ensures LineEnd(head + "\n" + rest) == |head|
  {
    var s := head + "\n" + rest;
    forall k | 0 <= k < |head| ensures s[k] != '\n' {
      assert s[k] == head[k];
    }
    assert s[|head|] == '\n';
  }
}
