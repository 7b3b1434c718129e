/** The text of the output file: its lines, and what a record looks like. */
module TextLines {
  import opened Base
  import opened Numerals
  import Hex
  import opened Ingest

  /** The line of a log; the text is its time of ingestion. */
  type Format = (Log, string) -> string

  /** One JSON object without inner objects. */
  predicate OneObject(s: string) {
    && |s| >= 2 && s[0] == '{' && s[|s| - 1] == '}' && '\n' !in s
    && (forall i :: 0 < i < |s| ==> s[i] != '{')
    && (forall i :: 0 <= i < |s| - 1 ==> s[i] != '}')
  }

  /** Every record is one object, which tells the log. */
  ghost predicate IsFormat(line: Format) {
    && (forall l, t :: OneObject(line(l, t)))
    && (forall l, t, m, u :: line(l, t) == line(m, u) ==> l == m)
  }

  /** What follows the last newline. */
  function Open(text: string): string {
    if text == "" || text[|text| - 1] == '\n' then "" else Open(text[..|text| - 1]) + [text[|text| - 1]]
  }

  /** The lines that end with a newline. */
  function Closed(text: string): seq<string> {
    if text == "" then []
    else if text[|text| - 1] == '\n' then Closed(text[..|text| - 1]) + [Open(text[..|text| - 1])]
    else Closed(text[..|text| - 1])
  }

  /** The lines a scanner finds: the last one needs no newline. */
  function Lines(text: string): seq<string> {
    Closed(text) + if Open(text) == "" then [] else [Open(text)]
  }

  lemma OneMoreChar(text: string, c: char)
    ensures c == '\n' ==> Open(text + [c]) == "" && Closed(text + [c]) == Closed(text) + [Open(text)]
    ensures c != '\n' ==> Open(text + [c]) == Open(text) + [c] && Closed(text + [c]) == Closed(text)
  {
    assert (text + [c])[..|text|] == text;
  }

  lemma {:induction false} LinesJoin(text: string)
    ensures WithNewlines(Closed(text)) + Open(text) == text
  {
    if text != "" {
      hide WithNewlines;
      hide Open;
      hide Closed;
      var init, c := text[..|text| - 1], text[|text| - 1];
      LinesJoin(init);
      var joined, rest := WithNewlines(Closed(init)), Open(init);
      assert text == init + [c];
      OneMoreChar(init, c);
      if c == '\n' {
        OneMoreLine(Closed(init), rest);
        assert WithNewlines(Closed(text)) == init + "\n" && init + "\n" + "" == init + "\n";
      } else {
        assert joined + (rest + [c]) == (joined + rest) + [c];
      }
    }
  }

  lemma OneMoreLine(lines: seq<string>, line: string)
    ensures WithNewlines(lines + [line]) == WithNewlines(lines) + line + "\n"
  {
    assert (lines + [line])[..|lines|] == lines;
  }

  lemma {:induction false} NoNewlines(text: string)
    ensures '\n' !in Open(text) && forall line :: line in Closed(text) ==> '\n' !in line
  {
    if text != "" {
      NoNewlines(text[..|text| - 1]);
    }
  }

  /** The lines with their newlines, and what is left, are the text; no line contains a newline. */
  lemma LinesMakeText(text: string)
    ensures WithNewlines(Closed(text)) + Open(text) == text
    ensures '\n' !in Open(text) && forall line :: line in Closed(text) ==> '\n' !in line
    ensures Lines(text) == if Open(text) == "" then Closed(text) else Closed(text) + [Open(text)]
  {
    LinesJoin(text);
    NoNewlines(text);
    hide Open;
    hide Closed;
  }

  /** Lines one after the other, each with its newline. */
  function WithNewlines(lines: seq<string>): string {
    if lines == [] then "" else WithNewlines(lines[..|lines| - 1]) + lines[|lines| - 1] + "\n"
  }

  lemma {:induction false} MoreOpen(text: string, s: string)
    requires '\n' !in s
    ensures Open(text + s) == Open(text) + s && Closed(text + s) == Closed(text)
  {
    if s == "" {
      assert text + s == text;
    } else {
      var init, c := s[..|s| - 1], s[|s| - 1];
      MoreOpen(text, init);
      assert (text + s)[..|text + s| - 1] == text + init;
    }
  }

  lemma EndLine(text: string, s: string)
    requires '\n' !in s
    ensures Open(text + s + "\n") == "" && Closed(text + s + "\n") == Closed(text) + [Open(text) + s]
  {
    MoreOpen(text, s);
    assert (text + s + "\n")[..|text + s|] == text + s;
  }

  /** A torn end is the beginning of a record. */
  predicate OpensRecord(s: string) {
    s != "" ==> s[0] == '{'
  }

  /** A record behind a torn one makes a line that is no record. */
  lemma JoinedIsNoRecord(line: Format, open: string, s: string, l: Log, t: string)
    requires IsFormat(line) && open != "" && OpensRecord(open) && OneObject(s)
    ensures open + s != line(l, t)
  {
    assert OneObject(line(l, t));
    assert (open + s)[|open|] == '{';
  }

  /** A beginning of a record that is a record is the same record. */
  lemma BeginningIsWhole(line: Format, l: Log, t: string, m: Log, u: string, k: nat)
    requires IsFormat(line) && Survives(line(m, u), k) == line(l, t)
    ensures l == m
  {
    assert OneObject(line(l, t)) && OneObject(line(m, u));
    var s := line(l, t);
    assert s[|s| - 1] == '}' && line(m, u)[|s| - 1] == '}';
    assert |s| == |line(m, u)|;
  }

  // ----- A format exists

  /** No character of the text is a brace or a newline. */
  predicate IsPlain(s: string) {
    forall i :: 0 <= i < |s| ==> s[i] == ':' || s[i] == 'x' || Hex.HexValue(s[i]).Some?
  }

  /** Text as character codes. */
  function Coded(s: string): (c: string)
    ensures IsPlain(c)
  {
    if s == "" then "" else Digits(s[0] as int) + ":" + Coded(s[1..])
  }

  function CodedLine(l: Log, t: string): string {
    "{" + IdKey(l) + ":" + Coded(l.payload) + "}"
  }

  lemma {:induction false} CodedInjective(s: string, u: string)
    requires Coded(s) == Coded(u)
    ensures s == u
  {
    if s != "" && u != "" {
      ColonSplit(Digits(s[0] as int), Digits(u[0] as int), Coded(s[1..]), Coded(u[1..]));
      DigitsInjective(s[0] as int, u[0] as int);
      CodedInjective(s[1..], u[1..]);
    }
  }

  lemma CodedLineIsObject(l: Log, t: string)
    ensures OneObject(CodedLine(l, t))
  {
    Hex.PairsAreHex(l.txHash);
    assert IsPlain(IdKey(l));
    var s := CodedLine(l, t);
    assert IsPlain(s[1..|s| - 1]);
  }

  /** What is between the braces. */
  lemma CodedParts(l: Log, t: string)
    ensures var s := CodedLine(l, t);
      s[1..|s| - 1] == Digits(l.block) + ":" + (Hex.Encode(l.txHash) + ":" + (Digits(l.index) + ":" + Coded(l.payload)))
  {
    hide Hex.Encode;
    hide Coded;
    hide IsPlain;
  }

  lemma CodedLineInjective(l: Log, t: string, m: Log, u: string)
    requires CodedLine(l, t) == CodedLine(m, u)
    ensures l == m
  {
    hide Hex.Encode;
    hide Coded;
    hide IsPlain;
    hide CodedLine;
    hide Digits;
    var p, q := Coded(l.payload), Coded(m.payload);
    var x, y := Digits(l.index) + ":" + p, Digits(m.index) + ":" + q;
    var v, w := Hex.Encode(l.txHash) + ":" + x, Hex.Encode(m.txHash) + ":" + y;
    CodedParts(l, t);
    CodedParts(m, u);
    ColonSplit(Digits(l.block), Digits(m.block), v, w);
    ColonSplit(Hex.Encode(l.txHash), Hex.Encode(m.txHash), x, y);
    ColonSplit(Digits(l.index), Digits(m.index), p, q);
    DigitsInjective(l.block, m.block);
    DigitsInjective(l.index, m.index);
    Hex.RoundTrip(l.txHash);
    Hex.RoundTrip(m.txHash);
    CodedInjective(l.payload, m.payload);
  }

  lemma FormatExists()
    ensures exists line: Format :: IsFormat(line)
  {
    hide CodedLine;
    hide OneObject;
    forall l, t
      ensures OneObject(CodedLine(l, t))
    {
      CodedLineIsObject(l, t);
    }
    forall l, t, m, u | CodedLine(l, t) == CodedLine(m, u)
      ensures l == m
    {
      CodedLineInjective(l, t, m, u);
    }
    var line: Format := CodedLine;
    assert IsFormat(line);
  }
}
