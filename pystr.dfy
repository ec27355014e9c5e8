/**
 * The Python string built-ins the record store, the validators and the drivers rely on,
 * written out: str.isspace, strip, split on one character, join, startswith, replace of
 * one character, int(), str() of an int, re.sub(r'\s+', ' ', ...), upper/lower and
 * os.path.join. The whitespace collapse is specified against str.split() with no argument:
 * on stripped text it is ' '.join(text.split()).
 */
module PyStr {
  import opened Wrappers

  /** str.isspace() of one character; also the characters `\s` matches in a `re` pattern over str. */
  predicate IsSpace(c: char) {
    || ('\t' <= c && c <= '\r')
    || ('\U{1C}' <= c && c <= '\U{1F}')
    || c == ' ' || c == '\U{85}' || c == '\U{A0}' || c == '\U{1680}'
    || ('\U{2000}' <= c && c <= '\U{200A}')
    || c == '\U{2028}' || c == '\U{2029}' || c == '\U{202F}' || c == '\U{205F}' || c == '\U{3000}'
  }

  /** A non-empty string that neither starts nor ends with whitespace: strip() leaves it alone. */
  predicate NoSpaceEnds(s: string) {
    s != [] && !IsSpace(s[0]) && !IsSpace(s[|s| - 1])
  }

  /** s.lstrip() */
  function LStrip(s: string): (r: string)
    ensures |r| <= |s| && r == s[|s| - |r|..]
    ensures forall i :: 0 <= i < |s| - |r| ==> IsSpace(s[i])
    ensures r == [] || !IsSpace(r[0])
    decreases |s|
  {
    if s != [] && IsSpace(s[0]) then LStrip(s[1..]) else s
  }

  /** s.rstrip() */
  function RStrip(s: string): (r: string)
    ensures |r| <= |s| && r == s[..|r|]
    ensures forall i :: |r| <= i < |s| ==> IsSpace(s[i])
    ensures r == [] || !IsSpace(r[|r| - 1])
    decreases |s|
  {
    if s != [] && IsSpace(s[|s| - 1]) then RStrip(s[..|s| - 1]) else s
  }

  /** s.strip(): what is left once the leading and the trailing whitespace are gone. */
  function Strip(s: string): (r: string)
    ensures |r| <= |s|
    ensures r == [] || NoSpaceEnds(r)
    ensures r == [] <==> forall i :: 0 <= i < |s| ==> IsSpace(s[i])
    ensures NoSpaceEnds(s) ==> r == s
  {
    LStrip(RStrip(s))
  }

  /** A whitespace character at the end (a line terminator, say) makes no difference to strip(). */
  lemma StripDropsTrailingSpace(s: string, c: char)
    requires IsSpace(c)
    ensures Strip(s + [c]) == Strip(s)
  {
    assert (s + [c])[..|s + [c]| - 1] == s;
  }

  /** Whitespace around a text with no whitespace at its ends is all strip() removes. */
  lemma StripSurrounded(pre: string, x: string, post: string)
    requires forall i :: 0 <= i < |pre| ==> IsSpace(pre[i])
    requires forall i :: 0 <= i < |post| ==> IsSpace(post[i])
    requires NoSpaceEnds(x)
    ensures Strip(pre + x + post) == x
  {
    var s := pre + x + post;
    var r := RStrip(s);
    assert s[|pre| + |x| - 1] == x[|x| - 1];
    assert forall i :: |pre| + |x| <= i < |s| ==> s[i] == post[i - |pre| - |x|];
    assert |r| == |pre| + |x|;
    assert r == pre + x by {
      assert s[..|pre| + |x|] == pre + x;
    }
    var l := LStrip(r);
    assert r[|pre|] == x[0];
    assert forall i :: 0 <= i < |pre| ==> r[i] == pre[i];
    assert |l| == |x|;
  }

  /** Whitespace appended to a text changes nothing rstrip() leaves. */
  lemma {:induction false} RStripSpaces(s: string, t: string)
    requires forall i :: 0 <= i < |t| ==> IsSpace(t[i])
    ensures RStrip(s + t) == RStrip(s)
    decreases |t|
  {
    if t != [] {
      var st := s + t;
      assert st[|st| - 1] == t[|t| - 1];
      assert st[..|st| - 1] == s + t[..|t| - 1];
      RStripSpaces(s, t[..|t| - 1]);
    } else {
      assert s + t == s;
    }
  }

  /** Whitespace appended to a text changes nothing strip() leaves. */
  lemma StripSpaces(s: string, t: string)
    requires forall i :: 0 <= i < |t| ==> IsSpace(t[i])
    ensures Strip(s + t) == Strip(s)
  {
    RStripSpaces(s, t);
  }

  /** [x] * n */
  function Repeat<T>(x: T, n: nat): seq<T> {
    seq(n, _ => x)
  }

  lemma RepeatSnoc<T>(x: T, n: nat)
    ensures Repeat(x, n) + [x] == Repeat(x, n + 1)
  {
  }

  /** Position of the first occurrence of c in s. */
  function IndexOf(s: string, c: char): (k: nat)
    requires c in s
    ensures k < |s| && s[k] == c && c !in s[..k]
  {
    if s[0] == c then 0
    else
      var k := IndexOf(s[1..], c);
      assert s[..k + 1] == [s[0]] + s[1..][..k];
      k + 1
  }

  /** s.split(sep) for a one-character separator: the pieces between consecutive separators. */
  function Split(s: string, sep: char): (parts: seq<string>)
    ensures |parts| >= 1
    ensures forall i :: 0 <= i < |parts| ==> sep !in parts[i]
    decreases |s|
  {
    if sep !in s then [s]
    else
      var k := IndexOf(s, sep);
      [s[..k]] + Split(s[k + 1..], sep)
  }

  /** sep.join(parts) */
  function Join(parts: seq<string>, sep: char): string
  {
    if parts == [] then ""
    else if |parts| == 1 then parts[0]
    else parts[0] + [sep] + Join(parts[1..], sep)
  }

  /** Joining two non-empty lists of pieces is joining each and putting the separator between. */
  lemma {:induction false} JoinAppend(a: seq<string>, b: seq<string>, sep: char)
    requires |a| >= 1 && |b| >= 1
    ensures Join(a + b, sep) == Join(a, sep) + [sep] + Join(b, sep)
    decreases |a|
  {
    if |a| > 1 {
      assert (a + b)[1..] == a[1..] + b;
      JoinAppend(a[1..], b, sep);
    } else {
      assert (a + b)[1..] == b;
    }
  }

  /** Joining pieces free of the separator and splitting again gives the pieces back. */
  lemma {:induction false} SplitJoin(parts: seq<string>, sep: char)
    requires |parts| >= 1
    requires forall i :: 0 <= i < |parts| ==> sep !in parts[i]
    ensures Split(Join(parts, sep), sep) == parts
  {
    if |parts| > 1 {
      var s := Join(parts, sep);
      var n := |parts[0]|;
      assert s == parts[0] + [sep] + Join(parts[1..], sep);
      assert s[n] == sep;
      assert s[..n] == parts[0];
      SplitAt(s, sep, n);
      assert s[n + 1..] == Join(parts[1..], sep);
      SplitJoin(parts[1..], sep);
    }
  }

  /** The first occurrence is the one with no occurrence before it. */
  lemma IndexOfFirst(s: string, c: char, n: nat)
    requires n < |s| && s[n] == c && c !in s[..n]
    ensures IndexOf(s, c) == n
  {
    var k := IndexOf(s, c);
    assert forall j :: 0 <= j < n ==> s[..n][j] == s[j];
    assert forall j :: 0 <= j < k ==> s[..k][j] == s[j];
  }

  /** Splitting at the first separator, given where it is. */
  lemma SplitAt(s: string, sep: char, k: nat)
    requires k < |s| && s[k] == sep && sep !in s[..k]
    ensures Split(s, sep) == [s[..k]] + Split(s[k + 1..], sep)
  {
    IndexOfFirst(s, sep, k);
  }

  /** Splitting and joining again with the same separator gives the string back. */
  lemma {:induction false} JoinSplit(s: string, sep: char)
    ensures Join(Split(s, sep), sep) == s
    decreases |s|
  {
    if sep in s {
      var k := IndexOf(s, sep);
      var rest := Split(s[k + 1..], sep);
      JoinSplit(s[k + 1..], sep);
      SplitAt(s, sep, k);
      assert Join(Split(s, sep), sep) == s[..k] + [sep] + Join(rest, sep);
      assert s == s[..k] + [sep] + s[k + 1..];
    }
  }

  /** A character absent from a text is absent from every piece of its split. */
  lemma {:induction false} SplitAvoids(s: string, sep: char, c: char)
    requires c !in s
    ensures forall i :: 0 <= i < |Split(s, sep)| ==> c !in Split(s, sep)[i]
    decreases |s|
  {
    if sep in s {
      var k := IndexOf(s, sep);
      assert c !in s[..k] && c !in s[k + 1..];
      SplitAvoids(s[k + 1..], sep, c);
      var parts := Split(s, sep);
      assert parts == [s[..k]] + Split(s[k + 1..], sep);
      forall i | 1 <= i < |parts|
        ensures c !in parts[i]
      {
        assert parts[i] == Split(s[k + 1..], sep)[i - 1];
      }
    }
  }

  /** The first piece of a split is the text before the first separator. */
  lemma SplitHead(s: string, sep: char)
    ensures sep in s ==> Split(s, sep)[0] == s[..IndexOf(s, sep)]
    ensures sep !in s ==> Split(s, sep) == [s]
  {
  }

  /** Where the text after the last separator starts: 0 when there is no separator. */
  function LastStart(s: string, sep: char): (j: nat)
    ensures j <= |s| && sep !in s[j..]
    ensures j == 0 || s[j - 1] == sep
    decreases |s|
  {
    if sep !in s then 0
    else
      var k := IndexOf(s, sep);
      var j := LastStart(s[k + 1..], sep);
      assert s[k + 1 + j..] == s[k + 1..][j..];
      assert j > 0 ==> s[k + j] == s[k + 1..][j - 1];
      k + 1 + j
  }

  /** s.split(sep)[-1]: the text after the last separator, or all of s when there is none. */
  function LastSegment(s: string, sep: char): (r: string)
    ensures sep !in r
    ensures |r| <= |s| && r == s[|s| - |r|..]
    ensures |r| < |s| ==> s[|s| - |r| - 1] == sep
  {
    s[LastStart(s, sep)..]
  }

  /** LastSegment is indeed the last piece Split produces. */
  lemma {:induction false} SplitLast(s: string, sep: char)
    ensures var parts := Split(s, sep); parts[|parts| - 1] == LastSegment(s, sep)
    decreases |s|
  {
    if sep in s {
      var k := IndexOf(s, sep);
      var rest := s[k + 1..];
      var tail := Split(rest, sep);
      SplitLast(rest, sep);
      SplitAt(s, sep, k);
      LastOfCons(s[..k], tail);
      var j := LastStart(rest, sep);
      assert LastStart(s, sep) == k + 1 + j;
      assert LastSegment(s, sep) == s[k + 1 + j..] == rest[j..] == LastSegment(rest, sep);
      assert Split(s, sep)[|Split(s, sep)| - 1] == tail[|tail| - 1];
    } else {
      assert s[0..] == s;
    }
  }

  /** A text without the separator is its own last piece. */
  lemma LastSegmentWhole(s: string, sep: char)
    requires sep !in s
    ensures LastSegment(s, sep) == s
  {
    var r := LastSegment(s, sep);
    if |r| < |s| {
      assert false;
    }
  }

  /** A text that ends with the separator has an empty last piece. */
  lemma LastSegmentAfterSep(s: string, sep: char)
    requires s != [] && s[|s| - 1] == sep
    ensures LastSegment(s, sep) == []
  {
  }

  lemma LastOfCons<T>(h: T, t: seq<T>)
    requires t != []
    ensures ([h] + t)[|t|] == t[|t| - 1]
  {
  }

  /** s.replace(a, b) for single characters. */
  function Replace(s: string, a: char, b: char): (r: string)
    ensures |r| == |s|
    ensures forall i :: 0 <= i < |s| ==> r[i] == if s[i] == a then b else s[i]
  {
    if s == [] then [] else [if s[0] == a then b else s[0]] + Replace(s[1..], a, b)
  }

  /** s.startswith(prefix) */
  predicate StartsWith(s: string, prefix: string) {
    |prefix| <= |s| && s[..|prefix|] == prefix
  }

  /** c.upper() for the ASCII letters; every other character is left as it is. */
  function UpperChar(c: char): char {
    if 'a' <= c && c <= 'z' then (c as int - 32) as char else c
  }

  /** c.lower() for the ASCII letters; every other character is left as it is. */
  function LowerChar(c: char): char {
    if 'A' <= c && c <= 'Z' then (c as int + 32) as char else c
  }

  function Upper(s: string): (r: string)
    ensures |r| == |s| && forall i :: 0 <= i < |s| ==> r[i] == UpperChar(s[i])
  {
    if s == [] then [] else [UpperChar(s[0])] + Upper(s[1..])
  }

  function Lower(s: string): (r: string)
    ensures |r| == |s| && forall i :: 0 <= i < |s| ==> r[i] == LowerChar(s[i])
  {
    if s == [] then [] else [LowerChar(s[0])] + Lower(s[1..])
  }

  lemma LowerUpperChar(c: char)
    requires 'a' <= c <= 'z'
    ensures 'A' <= UpperChar(c) <= 'Z' && LowerChar(UpperChar(c)) == c
  {
  }

  /** Upper-casing a word of lower-case ASCII letters and lower-casing it again gives the word back. */
  lemma LowerUpper(s: string)
    requires forall i :: 0 <= i < |s| ==> 'a' <= s[i] <= 'z'
    ensures forall i :: 0 <= i < |s| ==> 'A' <= Upper(s)[i] <= 'Z'
    ensures Lower(Upper(s)) == s
  {
    forall i | 0 <= i < |s|
      ensures 'A' <= Upper(s)[i] <= 'Z' && Lower(Upper(s))[i] == s[i]
    {
      LowerUpperChar(s[i]);
    }
  }

  /** No two spaces in a row. */
  predicate SingleSpaced(s: string) {
    forall i :: 0 <= i < |s| - 1 ==> !(s[i] == ' ' && s[i + 1] == ' ')
  }

  /** re.sub(r'\s+', ' ', s): every maximal run of whitespace becomes one space. */
  function CollapseSpaces(s: string): (r: string)
    ensures |r| <= |s|
    decreases |s|
  {
    if s == [] then []
    else if IsSpace(s[0]) then " " + CollapseSpaces(LStrip(s))
    else [s[0]] + CollapseSpaces(s[1..])
  }

  /** How many non-whitespace characters s starts with. */
  function WordRun(s: string): (n: nat)
    ensures n <= |s| && forall i :: 0 <= i < n ==> !IsSpace(s[i])
    ensures n == |s| || IsSpace(s[n])
    ensures s != [] && !IsSpace(s[0]) ==> n > 0
    decreases |s|
  {
    if s != [] && !IsSpace(s[0]) then 1 + WordRun(s[1..]) else 0
  }

  /** A non-empty run of non-whitespace characters. */
  predicate IsWord(w: string) {
    w != [] && forall j :: 0 <= j < |w| ==> !IsSpace(w[j])
  }

  /** s.split() with no argument: the maximal runs of non-whitespace characters, in order. */
  function Words(s: string): (ws: seq<string>)
    ensures forall i :: 0 <= i < |ws| ==> IsWord(ws[i])
    decreases |s|
  {
    if s == [] then []
    else if IsSpace(s[0]) then Words(s[1..])
    else
      var k := WordRun(s);
      var ws := Words(s[k..]);
      assert forall i :: 1 <= i < |ws| + 1 ==> ([s[..k]] + ws)[i] == ws[i - 1];
      [s[..k]] + ws
  }

  /** A text of whitespace only has no word, and a text with a non-whitespace character has one. */
  lemma {:induction false} WordsEmpty(s: string)
    ensures Words(s) == [] <==> forall i :: 0 <= i < |s| ==> IsSpace(s[i])
    decreases |s|
  {
    if s != [] && IsSpace(s[0]) {
      WordsEmpty(s[1..]);
      assert forall i :: 1 <= i < |s| ==> s[i] == s[1..][i - 1];
    }
  }

  /** Leading whitespace adds no word. */
  lemma {:induction false} WordsLStrip(s: string)
    ensures Words(LStrip(s)) == Words(s)
    decreases |s|
  {
    if s != [] && IsSpace(s[0]) {
      WordsLStrip(s[1..]);
    }
  }

  /** A word at the front, followed by whitespace or by nothing, is kept whole, and collapsing goes on after it. */
  lemma {:induction false} CollapseAfterWord(s: string, k: nat)
    requires 0 < k <= |s| && (forall i :: 0 <= i < k ==> !IsSpace(s[i])) && (k == |s| || IsSpace(s[k]))
    ensures CollapseSpaces(s) == s[..k] + CollapseSpaces(s[k..])
    decreases k
  {
    assert CollapseSpaces(s) == [s[0]] + CollapseSpaces(s[1..]);
    if k == 1 {
      assert s[..1] == [s[0]];
    } else {
      var t := s[1..];
      CollapseAfterWord(t, k - 1);
      assert t[k - 1..] == s[k..];
      assert [s[0]] + t[..k - 1] == s[..k];
    }
  }

  /** What lstrip() leaves of a text ends where the text ends. */
  lemma LStripLast(s: string)
    ensures LStrip(s) != [] ==> LStrip(s)[|LStrip(s)| - 1] == s[|s| - 1]
  {
  }

  /** Text with no whitespace at its ends collapses to exactly ' '.join(s.split()). */
  lemma {:induction false} CollapseWords(s: string)
    requires s == [] || NoSpaceEnds(s)
    ensures CollapseSpaces(s) == Join(Words(s), ' ')
    decreases |s|
  {
    if s != [] {
      var k := WordRun(s);
      var rest := s[k..];
      if rest == [] {
        CollapseAfterWord(s, k);
        assert Words(s) == [s[..k]] + Words(rest);
        assert CollapseSpaces(s) == s[..k] + [];
      } else {
        var u := LStrip(rest);
        LStripLast(rest);
        assert rest[|rest| - 1] == s[|s| - 1];
        CollapseWords(u);
        CollapseWordsStep(s);
      }
    }
  }

  /** The step of CollapseWords past the first word, given that the rest collapses to its words. */
  lemma CollapseWordsStep(s: string)
    requires NoSpaceEnds(s) && WordRun(s) < |s|
    requires var u := LStrip(s[WordRun(s)..]); CollapseSpaces(u) == Join(Words(u), ' ')
    ensures CollapseSpaces(s) == Join(Words(s), ' ')
  {
    CollapseFirstWord(s);
    JoinFirstWord(s);
  }

  /** Past its first word, a text with no whitespace at its ends collapses to a space and the later words. */
  lemma CollapseFirstWord(s: string)
    requires NoSpaceEnds(s) && WordRun(s) < |s|
    requires var u := LStrip(s[WordRun(s)..]); CollapseSpaces(u) == Join(Words(u), ' ')
    ensures var k := WordRun(s);
            Words(s[k..]) != [] && CollapseSpaces(s) == s[..k] + (" " + Join(Words(s[k..]), ' '))
  {
    var k := WordRun(s);
    var rest := s[k..];
    CollapseAfterWord(s, k);
    assert rest[|rest| - 1] == s[|s| - 1];
    CollapseAfterSpace(rest);
  }

  /** The words of a text that starts with a word, joined: that word, a space, and the later words joined. */
  lemma JoinFirstWord(s: string)
    requires s != [] && !IsSpace(s[0]) && Words(s[WordRun(s)..]) != []
    ensures var k := WordRun(s);
            Join(Words(s), ' ') == s[..k] + (" " + Join(Words(s[k..]), ' '))
  {
    var k := WordRun(s);
    assert Words(s) == [s[..k]] + Words(s[k..]);
    JoinCons(s[..k], Words(s[k..]), ' ');
    AppendAssoc(s[..k], " ", Join(Words(s[k..]), ' '));
  }

  /** Whitespace in front of words collapses to one space before them. */
  lemma CollapseAfterSpace(rest: string)
    requires rest != [] && IsSpace(rest[0]) && !IsSpace(rest[|rest| - 1])
    requires var u := LStrip(rest); CollapseSpaces(u) == Join(Words(u), ' ')
    ensures Words(rest) != [] && CollapseSpaces(rest) == " " + Join(Words(rest), ' ')
  {
    var u := LStrip(rest);
    LStripLast(rest);
    assert u != [];
    WordsLStrip(rest);
    assert Words(u) != [];
  }

  /** Joining a piece in front of a non-empty list puts one separator after it. */
  lemma JoinCons(w: string, ws: seq<string>, sep: char)
    requires ws != []
    ensures Join([w] + ws, sep) == w + [sep] + Join(ws, sep)
  {
    assert ([w] + ws)[1..] == ws;
  }

  /** A word stays the same word when whitespace, or nothing, follows the text. */
  lemma WordRunAppend(t: string, sp: string)
    requires WordRun(t) < |t| || sp == [] || IsSpace(sp[0])
    ensures WordRun(t + sp) == WordRun(t)
  {
    var k := WordRun(t);
    assert forall i :: 0 <= i < |t| ==> (t + sp)[i] == t[i];
    assert k < |t + sp| ==> (t + sp)[k] == if k < |t| then t[k] else sp[0];
  }

  /** Trailing whitespace adds no word. */
  lemma {:induction false} WordsSpaces(t: string, sp: string)
    requires forall i :: 0 <= i < |sp| ==> IsSpace(sp[i])
    ensures Words(t + sp) == Words(t)
    decreases |t|
  {
    if t == [] {
      assert t + sp == sp;
      WordsEmpty(sp);
    } else if IsSpace(t[0]) {
      assert (t + sp)[1..] == t[1..] + sp;
      WordsSpaces(t[1..], sp);
    } else {
      var k := WordRun(t);
      WordRunAppend(t, sp);
      assert (t + sp)[..k] == t[..k];
      assert (t + sp)[k..] == t[k..] + sp;
      WordsSpaces(t[k..], sp);
    }
  }

  /** Whitespace only as single spaces. */
  predicate Collapsed(j: string) {
    (forall i :: 0 <= i < |j| ==> IsSpace(j[i]) ==> j[i] == ' ') && SingleSpaced(j)
  }

  /** Words joined by single spaces: no whitespace at the ends, and no other whitespace than single spaces. */
  lemma {:induction false} JoinWordsShape(ws: seq<string>)
    requires forall i :: 0 <= i < |ws| ==> IsWord(ws[i])
    ensures ws != [] ==> NoSpaceEnds(Join(ws, ' '))
    ensures Collapsed(Join(ws, ' '))
  {
    if |ws| == 1 {
      assert Join(ws, ' ') == ws[0];
    } else if |ws| > 1 {
      JoinWordsShape(ws[1..]);
      JoinCons(ws[0], ws[1..], ' ');
      assert [ws[0]] + ws[1..] == ws;
      CollapsedCons(ws[0], Join(ws[1..], ' '));
    }
  }

  /** A word, a space and a collapsed text with no whitespace at its ends make such a text again. */
  lemma CollapsedCons(w: string, r: string)
    requires IsWord(w) && NoSpaceEnds(r) && Collapsed(r)
    ensures NoSpaceEnds(w + [' '] + r) && Collapsed(w + [' '] + r)
  {
    var x := w + [' '] + r;
    var n := |w|;
    assert forall i :: 0 <= i < n ==> x[i] == w[i];
    assert x[n] == ' ';
    assert forall i :: n < i < |x| ==> x[i] == r[i - n - 1];
    forall i | 0 <= i < |x| - 1
      ensures !(x[i] == ' ' && x[i + 1] == ' ')
    {
      if i < n {
        assert !IsSpace(x[i]);
      } else if i == n {
        assert x[i + 1] == r[0];
      } else {
        assert x[i] == r[i - n - 1] && x[i + 1] == r[i - n];
      }
    }
  }

  /** Splitting words joined by single spaces gives the words back. */
  lemma {:induction false} WordsOfJoin(ws: seq<string>)
    requires forall i :: 0 <= i < |ws| ==> IsWord(ws[i])
    ensures Words(Join(ws, ' ')) == ws
  {
    if |ws| == 1 {
      WordsOfWord(ws[0]);
    } else if |ws| > 1 {
      WordsOfJoin(ws[1..]);
      JoinCons(ws[0], ws[1..], ' ');
      WordsCons(ws[0], Join(ws[1..], ' '));
      assert [ws[0]] + ws[1..] == ws;
    }
  }

  /** A single word splits into itself. */
  lemma WordsOfWord(w: string)
    requires IsWord(w)
    ensures Words(w) == [w]
  {
    assert WordRun(w) == |w|;
    assert w[..|w|] == w && w[|w|..] == [];
  }

  /** A word, a space, then more text: that word comes first, then the words of the rest. */
  lemma WordsCons(w: string, r: string)
    requires IsWord(w)
    ensures Words(w + [' '] + r) == [w] + Words(r)
  {
    var x := w + [' '] + r;
    assert forall i :: 0 <= i < |w| ==> x[i] == w[i];
    assert x[|w|] == ' ';
    assert WordRun(x) == |w|;
    assert x[..|w|] == w;
    assert x[|w|..][1..] == r;
  }

  /** strip() changes no word. */
  lemma WordsStrip(s: string)
    ensures Words(Strip(s)) == Words(s)
  {
    var r := RStrip(s);
    assert s == r + s[|r|..];
    WordsSpaces(r, s[|r|..]);
    WordsLStrip(r);
  }

  /** os.path.join(dir, name) on POSIX. */
  function PathJoin(dir: string, name: string): string {
    if name != [] && name[0] == '/' then name
    else if dir == [] || dir[|dir| - 1] == '/' then dir + name
    else dir + "/" + name
  }

  /** Joined onto one directory, two relative names give the same path only when they are the same. */
  lemma PathJoinInjective(dir: string, a: string, b: string)
    requires a != [] && a[0] != '/' && b != [] && b[0] != '/'
    requires PathJoin(dir, a) == PathJoin(dir, b)
    ensures a == b
  {
    var p := if dir == [] || dir[|dir| - 1] == '/' then dir else dir + "/";
    assert PathJoin(dir, a) == p + a && PathJoin(dir, b) == p + b;
    assert a == (p + a)[|p|..] && b == (p + b)[|p|..];
  }

  /** File names that differ only in their middle part differ. */
  lemma AffixInjective(prefix: string, a: string, b: string, suffix: string)
    requires prefix + a + suffix == prefix + b + suffix
    ensures a == b
  {
    var x, y := prefix + a + suffix, prefix + b + suffix;
    assert |a| == |b|;
    assert a == x[|prefix|..|prefix| + |a|] && b == y[|prefix|..|prefix| + |b|];
  }

  // ----- integers -----

  predicate IsDigit(c: char) {
    '0' <= c && c <= '9'
  }

  predicate AllDigits(s: string) {
    forall i :: 0 <= i < |s| ==> IsDigit(s[i])
  }

  function DigitChar(d: nat): (c: char)
    requires d < 10
    ensures IsDigit(c) && c as int - '0' as int == d
  {
    ('0' as int + d) as char
  }

  /** str(n) for n >= 0. */
  function NatStr(n: nat): (r: string)
    ensures r != [] && AllDigits(r)
    decreases n
  {
    if n < 10 then [DigitChar(n)] else NatStr(n / 10) + [DigitChar(n % 10)]
  }

  /** str(n) */
  function IntStr(n: int): string {
    if n < 0 then "-" + NatStr(-n) else NatStr(n)
  }

  /** The number a run of ASCII digits spells in base 10. */
  function DigitsValue(ds: string): nat
    requires AllDigits(ds)
    decreases |ds|
  {
    if ds == [] then 0
    else 10 * DigitsValue(ds[..|ds| - 1]) + (ds[|ds| - 1] as int - '0' as int)
  }

  /** The digits of an int() argument: ASCII digits, with single underscores only between digits. */
  predicate DigitGroups(s: string) {
    && s != [] && IsDigit(s[0]) && IsDigit(s[|s| - 1])
    && (forall i :: 0 <= i < |s| ==> IsDigit(s[i]) || s[i] == '_')
    && (forall i :: 0 <= i < |s| - 1 ==> !(s[i] == '_' && s[i + 1] == '_'))
  }

  function DropUnderscores(s: string): (r: string)
    requires forall i :: 0 <= i < |s| ==> IsDigit(s[i]) || s[i] == '_'
    ensures AllDigits(r)
    ensures AllDigits(s) ==> r == s
  {
    if s == [] then [] else (if s[0] == '_' then [] else [s[0]]) + DropUnderscores(s[1..])
  }

  /** The value of an unsigned int() body, if it is one. */
  function ParseDigits(t: string): Option<nat> {
    if DigitGroups(t) then Some(DigitsValue(DropUnderscores(t))) else None
  }

  /** int(s) for a str argument: optional surrounding whitespace, an optional sign, digit groups. */
  function ParseInt(s: string): Option<int> {
    var t := Strip(s);
    if t != [] && (t[0] == '-' || t[0] == '+') then
      match ParseDigits(t[1..])
      case Some(v) => Some(if t[0] == '-' then 0 - v else v as int)
      case None => None
    else
      match ParseDigits(t)
      case Some(v) => Some(v)
      case None => None
  }

  lemma {:induction false} NatStrValue(n: nat)
    ensures DigitsValue(NatStr(n)) == n
    decreases n
  {
    if n >= 10 {
      NatStrValue(n / 10);
      var s := NatStr(n);
      assert s[..|s| - 1] == NatStr(n / 10);
    }
  }

  /** str(n) neither starts nor ends with whitespace and holds nothing but digits after its sign. */
  lemma IntStrClean(n: int)
    ensures NoSpaceEnds(IntStr(n))
    ensures n < 0 ==> IntStr(n) == "-" + NatStr(-n)
    ensures n >= 0 ==> IntStr(n) == NatStr(n)
  {
    var s := IntStr(n);
    var body := if n < 0 then NatStr(-n) else NatStr(n);
    assert IsDigit(body[0]) && IsDigit(body[|body| - 1]);
    assert s[|s| - 1] == body[|body| - 1];
  }

  /** str(n) of a natural number reads back as n. */
  lemma NatStrParses(n: nat)
    ensures ParseDigits(NatStr(n)) == Some(n)
  {
    var s := NatStr(n);
    assert DigitGroups(s);
    assert DropUnderscores(s) == s;
    NatStrValue(n);
  }

  lemma NegIntStrRoundTrip(n: int)
    requires n < 0
    ensures ParseInt(IntStr(n)) == Some(n)
  {
    IntStrClean(n);
    var m: nat := -n;
    var t := IntStr(n);
    assert t[1..] == NatStr(m);
    NatStrParses(m);
    ParseNegative(t, m);
  }

  /** A text with a minus sign in front of digits int() reads is the negated number. */
  lemma ParseNegative(t: string, m: nat)
    requires NoSpaceEnds(t) && t[0] == '-' && ParseDigits(t[1..]) == Some(m)
    ensures ParseInt(t) == Some(-(m as int))
  {
    var u := Strip(t);
    assert u == t;
    assert u != [] && u[0] == '-';
    assert ParseDigits(u[1..]) == Some(m);
  }

  lemma NonNegIntStrRoundTrip(n: int)
    requires n >= 0
    ensures ParseInt(IntStr(n)) == Some(n)
  {
    IntStrClean(n);
    var t := Strip(IntStr(n));
    assert t == NatStr(n);
    assert t[0] != '-' && t[0] != '+';
    NatStrParses(n);
    assert ParseDigits(t) == Some(n);
  }

  /** int(str(n)) == n */
  lemma IntStrRoundTrip(n: int)
    ensures ParseInt(IntStr(n)) == Some(n)
  {
    if n < 0 {
      NegIntStrRoundTrip(n);
    } else {
      NonNegIntStrRoundTrip(n);
    }
  }
}
