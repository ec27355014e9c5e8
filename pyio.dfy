/**
 * Text files as the results stores see them. A path either does not exist or holds a
 * string; reading it in text mode translates "\r\n" and a lone "\r" into "\n" and
 * yields lines that keep their "\n". A `TextFile` object stands for one path whose
 * text the drivers append to or overwrite.
 */
module PyIO {
  import opened Wrappers
  import opened PyStr

  /** The text at a path, or None when the path does not exist. */
  type File = Option<string>

  /** What reading the path gives; a missing file reads as nothing (mode 'a' creates it empty). */
  function Contents(f: File): string {
    if f.Some? then f.value else ""
  }

  /** A file after text is appended to it by opens in mode 'a': untouched, not even created, when there is none. */
  function AfterText(f: File, text: string): File {
    if text == "" then f else Some(Contents(f) + text)
  }

  /** Text appended after earlier appends adds to what they left; appending nothing leaves it. */
  lemma AfterTextStep(f: File, text: string, more: string)
    ensures AfterText(f, text + more) == if more == "" then AfterText(f, text) else Some(Contents(AfterText(f, text)) + more)
  {
    if more == "" {
      assert text + more == text;
    } else if text == "" {
      assert text + more == more;
    } else {
      assert (Contents(f) + text) + more == Contents(f) + (text + more);
    }
  }

  /** Universal-newline translation on reading. */
  function Translate(s: string): (t: string)
    ensures '\r' !in t
    ensures |t| <= |s|
    decreases |s|
  {
    if s == [] then []
    else if s[0] == '\r' then "\n" + Translate(if |s| > 1 && s[1] == '\n' then s[2..] else s[1..])
    else [s[0]] + Translate(s[1..])
  }

  /** Translated text cut after every "\n"; the last piece lacks it when the text does not end with one. */
  function SplitLines(t: string): (ls: seq<string>)
    decreases |t|
  {
    if t == [] then []
    else if '\n' !in t then [t]
    else
      var k := IndexOf(t, '\n');
      [t[..k + 1]] + SplitLines(t[k + 1..])
  }

  /** The lines `for line in f` (or f.readlines()) yields for a file holding s. */
  function ReadLines(s: string): seq<string> {
    SplitLines(Translate(s))
  }

  /** ''.join(lines), which is also what f.writelines(lines) leaves in a file opened with 'w'. */
  function Concat(ls: seq<string>): string {
    if ls == [] then "" else ls[0] + Concat(ls[1..])
  }

  /** A complete line: ends with its only "\n" and holds no "\r". */
  predicate IsLine(l: string) {
    l != [] && l[|l| - 1] == '\n' && '\n' !in l[..|l| - 1] && '\r' !in l
  }

  /** A last line, which may lack its "\n". */
  predicate IsLastLine(l: string) {
    l != [] && '\r' !in l && (IsLine(l) || '\n' !in l)
  }

  /** The shape of what reading a file gives: complete lines, the last possibly unterminated. */
  predicate LinesShape(ls: seq<string>) {
    (forall i :: 0 <= i < |ls| - 1 ==> IsLine(ls[i])) && (ls != [] ==> IsLastLine(ls[|ls| - 1]))
  }

  lemma {:induction false} TranslateClean(s: string)
    requires '\r' !in s
    ensures Translate(s) == s
    decreases |s|
  {
    if s != [] {
      TranslateClean(s[1..]);
    }
  }

  /** Translation works piecewise when the first piece does not end in the middle of a "\r\n". */
  lemma {:induction false} TranslateAppend(a: string, b: string)
    requires a == [] || a[|a| - 1] != '\r'
    ensures Translate(a + b) == Translate(a) + Translate(b)
    decreases |a|
  {
    if a == [] {
      assert a + b == b;
    } else if a[0] == '\r' {
      assert |a| > 1 && (a + b)[1] == a[1];
      var n := if a[1] == '\n' then 2 else 1;
      assert (a + b)[n..] == a[n..] + b;
      TranslateAppend(a[n..], b);
    } else {
      assert (a + b)[1..] == a[1..] + b;
      TranslateAppend(a[1..], b);
    }
  }

  /** A text ending with "\n" still ends with "\n" once translated. */
  lemma {:induction false} TranslateEndsWithNewline(a: string)
    requires a != [] && a[|a| - 1] == '\n'
    ensures Translate(a) != [] && Translate(a)[|Translate(a)| - 1] == '\n'
    decreases |a|
  {
    if a[0] == '\r' {
      if |a| > 1 && a[1] == '\n' {
        if |a| > 2 {
          TranslateEndsWithNewline(a[2..]);
        }
      } else {
        TranslateEndsWithNewline(a[1..]);
      }
    } else if |a| > 1 {
      TranslateEndsWithNewline(a[1..]);
    }
  }

  lemma {:induction false} SplitLinesAppend(a: string, b: string)
    requires a == [] || a[|a| - 1] == '\n'
    ensures SplitLines(a + b) == SplitLines(a) + SplitLines(b)
    decreases |a|
  {
    if a == [] {
      assert a + b == b;
    } else {
      assert a[|a| - 1] in a;
      var k := IndexOf(a, '\n');
      assert a[k + 1..] == [] || a[k + 1..][|a[k + 1..]| - 1] == '\n';
      SplitLinesCons(a, b, k);
      SplitLinesAppend(a[k + 1..], b);
      SplitLinesAt(a, k);
      ConsAppend(SplitLines(a + b), SplitLines(a), SplitLines(b), SplitLines(a[k + 1..] + b), SplitLines(a[k + 1..]), a[..k + 1]);
    }
  }

  /** Cutting a text at its first "\n". */
  lemma SplitLinesAt(t: string, k: nat)
    requires k < |t| && t[k] == '\n' && '\n' !in t[..k]
    ensures SplitLines(t) == [t[..k + 1]] + SplitLines(t[k + 1..])
  {
    IndexOfFirst(t, '\n', k);
  }

  lemma ConsAppend<T>(xab: seq<T>, xa: seq<T>, xb: seq<T>, xrb: seq<T>, xr: seq<T>, h: T)
    requires xab == [h] + xrb && xrb == xr + xb && xa == [h] + xr
    ensures xab == xa + xb
  {
  }

  /** The first line of a + b is the first line of a, when a has one. */
  lemma SplitLinesCons(a: string, b: string, k: nat)
    requires k < |a| && a[k] == '\n' && '\n' !in a[..k]
    ensures SplitLines(a + b) == [a[..k + 1]] + SplitLines(a[k + 1..] + b)
  {
    AppendSlices(a, b, k);
    AppendSlices(a, b, k + 1);
    SplitLinesAt(a + b, k);
  }

  /** Cutting a + b inside a. */
  lemma AppendSlices<T>(a: seq<T>, b: seq<T>, k: nat)
    requires k <= |a|
    ensures (a + b)[..k] == a[..k] && (a + b)[k..] == a[k..] + b
    ensures k < |a| ==> (a + b)[k] == a[k]
  {
  }

  /** Reading a file whose text is a + b: the lines of a, then those of b, when a ends a line. */
  lemma ReadLinesAppend(a: string, b: string)
    requires a == [] || a[|a| - 1] == '\n'
    ensures ReadLines(a + b) == ReadLines(a) + ReadLines(b)
  {
    TranslateAppend(a, b);
    if a != [] {
      TranslateEndsWithNewline(a);
    }
    SplitLinesAppend(Translate(a), Translate(b));
  }

  /** A non-empty file has at least one line. */
  lemma ReadLinesNonEmpty(s: string)
    requires s != []
    ensures ReadLines(s) != []
  {
    assert Translate(s) != [];
  }

  /** One line of text free of line breaks, followed by "\n", reads back as exactly that line. */
  lemma ReadLinesOfLine(l: string)
    requires '\n' !in l && '\r' !in l
    ensures ReadLines(l + "\n") == [l + "\n"]
  {
    var t := l + "\n";
    TranslateClean(t);
    assert t[..|l|] == l;
    IndexOfFirst(t, '\n', |l|);
    assert t[..|l| + 1] == t;
    assert t[|l| + 1..] == [];
    assert SplitLines(t) == [t] + SplitLines([]);
  }

  /** Whatever a file holds, reading it gives lines of the shape LinesShape describes. */
  lemma {:induction false} SplitLinesShape(t: string)
    requires '\r' !in t
    ensures LinesShape(SplitLines(t))
    decreases |t|
  {
    if t != [] && '\n' in t {
      var k := IndexOf(t, '\n');
      var rest := t[k + 1..];
      SplitLinesShape(rest);
      assert t[..k + 1][..k] == t[..k];
      assert IsLine(t[..k + 1]);
      var ls := SplitLines(t);
      assert ls == [t[..k + 1]] + SplitLines(rest);
      forall i | 0 <= i < |ls| - 1
        ensures IsLine(ls[i])
      {
        if i > 0 {
          assert ls[i] == SplitLines(rest)[i - 1];
        }
      }
    }
  }

  lemma ReadLinesShape(s: string)
    ensures LinesShape(ReadLines(s))
  {
    SplitLinesShape(Translate(s));
  }

  /** Splitting translated text into lines and joining them again gives the translated text. */
  lemma {:induction false} ConcatSplitLines(t: string)
    ensures Concat(SplitLines(t)) == t
    decreases |t|
  {
    if t != [] && '\n' in t {
      var k := IndexOf(t, '\n');
      ConcatSplitLines(t[k + 1..]);
      assert t == t[..k + 1] + t[k + 1..];
    }
  }

  /** Writing lines of that shape and reading the file again gives the same lines. */
  lemma {:induction false} ReadLinesConcat(ls: seq<string>)
    requires LinesShape(ls)
    ensures ReadLines(Concat(ls)) == ls
    decreases |ls|
  {
    if ls != [] {
      var l := ls[0];
      if |ls| == 1 {
        assert Concat(ls) == l;
        if IsLine(l) {
          assert l == l[..|l| - 1] + "\n";
          ReadLinesOfLine(l[..|l| - 1]);
        } else {
          TranslateClean(l);
        }
      } else {
        assert IsLine(l);
        assert LinesShape(ls[1..]) by {
          forall i | 0 <= i < |ls[1..]| - 1
            ensures IsLine(ls[1..][i])
          {
            assert ls[1..][i] == ls[i + 1];
          }
        }
        ReadLinesConcat(ls[1..]);
        assert l == l[..|l| - 1] + "\n";
        ReadLinesOfLine(l[..|l| - 1]);
        ReadLinesAppend(l, Concat(ls[1..]));
      }
    }
  }

  lemma {:induction false} ConcatAppend(a: seq<string>, b: seq<string>)
    ensures Concat(a + b) == Concat(a) + Concat(b)
  {
    if a != [] {
      assert (a + b)[1..] == a[1..] + b;
      ConcatAppend(a[1..], b);
    } else {
      assert a + b == b;
    }
  }

  lemma ConcatSnoc(ts: seq<string>, i: nat)
    requires i < |ts|
    ensures Concat(ts[..i + 1]) == Concat(ts[..i]) + ts[i]
  {
    assert ts[..i + 1] == ts[..i] + [ts[i]];
    ConcatAppend(ts[..i], [ts[i]]);
    assert Concat([ts[i]]) == ts[i] + Concat([]);
  }

  /** The joined lines end as the last line does. */
  lemma ConcatEndsAsLast(ls: seq<string>)
    requires ls != [] && ls[|ls| - 1] != []
    ensures var c := Concat(ls); var l := ls[|ls| - 1]; c != [] && c[|c| - 1] == l[|l| - 1]
  {
    var n := |ls| - 1;
    assert ls == ls[..n] + [ls[n]];
    ConcatAppend(ls[..n], [ls[n]]);
    assert Concat([ls[n]]) == ls[n] + Concat([]);
  }

  /** A file whose text ends with "\n" yields a complete last line. */
  lemma ReadLinesLastLine(s: string)
    requires s != [] && s[|s| - 1] == '\n'
    ensures var ls := ReadLines(s); ls != [] && IsLine(ls[|ls| - 1])
  {
    var t := Translate(s);
    TranslateEndsWithNewline(s);
    var ls := SplitLines(t);
    ConcatSplitLines(t);
    ReadLinesShape(s);
    ReadLinesNonEmpty(s);
    var l := ls[|ls| - 1];
    assert IsLastLine(l);
    ConcatEndsAsLast(ls);
    assert l[|l| - 1] == '\n';
    assert l[|l| - 1] in l;
  }

  /** str() of the FileNotFoundError that opening a missing file for reading raises. */
  function NotFound(path: string): string {
    "[Errno 2] No such file or directory: '" + path + "'"
  }

  /** A path on disk whose text the program changes. */
  class TextFile {
    var content: File

    constructor (initial: File)
      ensures content == initial
    {
      content := initial;
    }

    /** open(path, 'a').write(s): creates the file when it is missing, then adds s at its end. */
    method Append(s: string)
      modifies this
      ensures content == Some(Contents(old(content)) + s)
    {
      content := Some(Contents(content) + s);
    }

    /** f.write(t) for each t in turn on a file opened with 'a' (or 'w' and already written to). */
    method AppendEach(texts: seq<string>)
      modifies this
      ensures content == Some(Contents(old(content)) + Concat(texts))
    {
      var start := Contents(content);
      assert start + Concat(texts[..0]) == start;
      content := Some(start);
      for i := 0 to |texts|
        invariant content == Some(start + Concat(texts[..i]))
      {
        ConcatSnoc(texts, i);
        assert start + Concat(texts[..i]) + texts[i] == start + Concat(texts[..i + 1]);
        Append(texts[i]);
      }
      assert texts[..|texts|] == texts;
    }

    /** open(path, 'w').write(s): the file holds exactly s afterwards. */
    method Overwrite(s: string)
      modifies this
      ensures content == Some(s)
    {
      content := Some(s);
    }
  }
}
