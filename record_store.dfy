/**
 * The tab-separated results file every task keeps: one row per processed sample, the
 * sample id in the first column. A run appends rows; the next run reads the ids back to
 * skip what is done, and the metrics read (truth, prediction) from the last two columns.
 * The parts the tasks share are defined here once: sanitize_text, the row layout, the id
 * reader (load_existing_ids and its two copies), the pair reader of the metrics and the
 * text hash id.
 */
module RecordStore {
  import opened Wrappers
  import opened PyStr
  import opened PyIO

  /** Free of the three characters that would break a row: newline, carriage return, tab. */
  predicate IsClean(s: string) {
    '\n' !in s && '\r' !in s && '\t' !in s
  }

  /** A value that survives as a first column: clean, non-empty, no whitespace at either end. */
  predicate IsKey(s: string) {
    IsClean(s) && NoSpaceEnds(s)
  }

  /** sanitize_text: every newline, carriage return and tab becomes a space. */
  function Sanitize(s: string): (r: string)
    ensures |r| == |s| && IsClean(r)
    ensures forall i :: 0 <= i < |s| ==> r[i] == if s[i] in "\n\r\t" then ' ' else s[i]
  {
    Replace(Replace(Replace(s, '\n', ' '), '\r', ' '), '\t', ' ')
  }

  /** Text that is already clean passes through sanitize_text unchanged; so sanitising twice is sanitising once. */
  lemma SanitizeKeepsClean(s: string)
    requires IsClean(s)
    ensures Sanitize(s) == s
  {
    var r := Sanitize(s);
    forall i | 0 <= i < |s|
      ensures r[i] == s[i]
    {
      assert s[i] !in "\n\r\t";
    }
  }

  lemma SanitizeIdempotent(s: string)
    ensures Sanitize(Sanitize(s)) == Sanitize(s)
  {
    SanitizeKeepsClean(Sanitize(s));
  }

  /** One row of a results file: the fields joined by tabs, then a newline. */
  function Row(fields: seq<string>): string {
    Join(fields, '\t') + "\n"
  }

  lemma RowEndsWithNewline(fields: seq<string>)
    ensures Row(fields) != [] && Row(fields)[|Row(fields)| - 1] == '\n'
  {
  }

  /** A line holding nothing but whitespace; every reader skips it. */
  predicate IsBlank(line: string) {
    Strip(line) == []
  }

  /** line.strip().split('\t') */
  function Fields(line: string): (fs: seq<string>)
    ensures |fs| >= 1
  {
    Split(Strip(line), '\t')
  }

  /** The first column of every non-blank line. */
  function IdsOf(lines: seq<string>): set<string> {
    set i | 0 <= i < |lines| && !IsBlank(lines[i]) :: Fields(lines[i])[0]
  }

  /** The ids a results file records; none when it does not exist. */
  function FileIds(f: File): set<string> {
    if f.None? then {} else IdsOf(ReadLines(f.value))
  }

  /** The loop of load_existing_ids over the lines of a file. */
  method CollectIds(lines: seq<string>) returns (ids: set<string>)
    ensures ids == IdsOf(lines)
  {
    ids := {};
    for i := 0 to |lines|
      invariant ids == IdsOf(lines[..i])
    {
      var line := Strip(lines[i]);
      IdsOfNext(lines, i);
      if line != [] {
        ids := ids + {Split(line, '\t')[0]};
      }
    }
    assert lines[..|lines|] == lines;
  }

  /**
   * load_existing_ids (and load_existing_results of tagging and MCQA, which are the same
   * code): the first column of every non-blank line, no header skipped; a missing file
   * gives the empty set.
   */
  method LoadExistingIds(f: File) returns (ids: set<string>)
    ensures ids == FileIds(f)
    ensures f.None? ==> ids == {}
  {
    if f.None? {
      return {};
    }
    ids := CollectIds(ReadLines(f.value));
  }

  lemma IdsOfNext(lines: seq<string>, i: nat)
    requires i < |lines|
    ensures IdsOf(lines[..i + 1]) == IdsOf(lines[..i]) + if IsBlank(lines[i]) then {} else {Fields(lines[i])[0]}
  {
    assert lines[..i + 1] == lines[..i] + [lines[i]];
    IdsOfAppend(lines[..i], [lines[i]]);
    var one := [lines[i]];
    assert IdsOf(one) == if IsBlank(lines[i]) then {} else {Fields(lines[i])[0]} by {
      if !IsBlank(lines[i]) {
        assert Fields(one[0])[0] in IdsOf(one);
      }
    }
  }

  /** The ids of two runs of lines are the ids of each. */
  lemma IdsOfAppend(a: seq<string>, b: seq<string>)
    ensures IdsOf(a + b) == IdsOf(a) + IdsOf(b)
  {
    var ab := a + b;
    forall x | x in IdsOf(ab)
      ensures x in IdsOf(a) + IdsOf(b)
    {
      var i :| 0 <= i < |ab| && !IsBlank(ab[i]) && Fields(ab[i])[0] == x;
      if i < |a| {
        assert ab[i] == a[i];
      } else {
        assert ab[i] == b[i - |a|];
      }
    }
    forall x | x in IdsOf(a) + IdsOf(b)
      ensures x in IdsOf(ab)
    {
      if x in IdsOf(a) {
        var i :| 0 <= i < |a| && !IsBlank(a[i]) && Fields(a[i])[0] == x;
        assert ab[i] == a[i];
      } else {
        var i :| 0 <= i < |b| && !IsBlank(b[i]) && Fields(b[i])[0] == x;
        assert ab[|a| + i] == b[i];
      }
    }
  }

  /** A character in none of the pieces and not the separator is not in their join. */
  lemma {:induction false} JoinAvoids(parts: seq<string>, sep: char, c: char)
    requires c != sep
    requires forall i :: 0 <= i < |parts| ==> c !in parts[i]
    ensures c !in Join(parts, sep)
  {
    if |parts| > 1 {
      JoinAvoids(parts[1..], sep, c);
    }
  }

  /** The join starts with the first piece. */
  lemma {:induction false} JoinStartsWith(parts: seq<string>, sep: char)
    requires |parts| >= 1
    ensures |Join(parts, sep)| >= |parts[0]| && Join(parts, sep)[..|parts[0]|] == parts[0]
  {
  }

  /** The join ends with the last piece. */
  lemma {:induction false} JoinEndsWith(parts: seq<string>, sep: char)
    requires |parts| >= 1
    ensures var j := Join(parts, sep); var l := parts[|parts| - 1];
            |j| >= |l| && j[|j| - |l|..] == l
  {
    if |parts| > 1 {
      JoinEndsWith(parts[1..], sep);
      var j := Join(parts, sep);
      var rest := Join(parts[1..], sep);
      var l := parts[|parts| - 1];
      assert j == parts[0] + [sep] + rest;
      assert j[|j| - |l|..] == rest[|rest| - |l|..];
    }
  }

  /** A non-empty join of pieces whose outer ends are not whitespace has no whitespace ends. */
  lemma JoinNoSpaceEnds(parts: seq<string>, sep: char)
    requires |parts| >= 1 && parts[0] != [] && !IsSpace(parts[0][0])
    requires var l := parts[|parts| - 1]; l != [] && !IsSpace(l[|l| - 1])
    ensures NoSpaceEnds(Join(parts, sep))
  {
    JoinStartsWith(parts, sep);
    JoinEndsWith(parts, sep);
    var j := Join(parts, sep);
    var l := parts[|parts| - 1];
    assert j[0] == j[..|parts[0]|][0];
    assert j[|j| - 1] == j[|j| - |l|..][|l| - 1];
  }

  /** A row whose fields hold no line break reads back as one line. */
  lemma RowIsOneLine(fields: seq<string>)
    requires forall i :: 0 <= i < |fields| ==> '\n' !in fields[i] && '\r' !in fields[i]
    ensures ReadLines(Row(fields)) == [Row(fields)]
  {
    JoinAvoids(fields, '\t', '\n');
    JoinAvoids(fields, '\t', '\r');
    ReadLinesOfLine(Join(fields, '\t'));
  }

  /**
   * A row of clean fields, with no whitespace at its outer ends, reads back as one
   * non-blank line whose fields are exactly the fields written.
   */
  lemma RowRoundTrip(fields: seq<string>)
    requires |fields| >= 1
    requires forall i :: 0 <= i < |fields| ==> IsClean(fields[i])
    requires fields[0] != [] && !IsSpace(fields[0][0])
    requires var l := fields[|fields| - 1]; l != [] && !IsSpace(l[|l| - 1])
    ensures ReadLines(Row(fields)) == [Row(fields)]
    ensures !IsBlank(Row(fields)) && Fields(Row(fields)) == fields
  {
    RowIsOneLine(fields);
    var j := Join(fields, '\t');
    JoinNoSpaceEnds(fields, '\t');
    StripDropsTrailingSpace(j, '\n');
    SplitJoin(fields, '\t');
  }

  /** Whitespace appended to a string with a clean start does not reach into its first piece. */
  lemma StripKeepsKey(key: string, rest: string)
    requires IsKey(key)
    ensures exists m :: 0 <= m <= |rest| && Strip(key + rest) == key + rest[..m]
  {
    var s := key + rest;
    var r := RStrip(s);
    assert s[|key| - 1] == key[|key| - 1];
    assert |r| >= |key|;
    assert r[0] == key[0];
    assert LStrip(r) == r;
    var m := |r| - |key|;
    assert r == key + rest[..m];
  }

  /** The first column of a row is its first field when that field is a key. */
  lemma RowKey(fields: seq<string>)
    requires |fields| >= 1 && IsKey(fields[0])
    ensures !IsBlank(Row(fields)) && Fields(Row(fields))[0] == fields[0]
  {
    if |fields| == 1 {
      assert Row(fields) == fields[0] + "\n";
      StripDropsTrailingSpace(fields[0], '\n');
      assert Split(fields[0], '\t') == [fields[0]];
    } else {
      RowStarts(fields);
      KeyFirstField(Row(fields), fields[0]);
    }
  }

  /** A row of two or more fields starts with its first field and a tab. */
  lemma RowStarts(fields: seq<string>)
    requires |fields| >= 2
    ensures StartsWith(Row(fields), fields[0] + "\t")
  {
    assert Row(fields) == fields[0] + "\t" + (Join(fields[1..], '\t') + "\n");
  }

  /** strip() keeps a stretch of its input, so it adds no character. */
  lemma StripAvoids(s: string, c: char)
    requires c !in s
    ensures c !in Strip(s)
  {
    var r := RStrip(s);
    assert forall i :: 0 <= i < |r| ==> r[i] == s[i];
    var l := LStrip(r);
    assert forall i :: 0 <= i < |l| ==> l[i] == r[|r| - |l| + i];
  }

  /** A line as a file yields it has clean fields: strip() drops its "\n" and it holds no "\r". */
  lemma LineFieldsClean(line: string)
    requires IsLastLine(line)
    ensures forall i :: 0 <= i < |Fields(line)| ==> IsClean(Fields(line)[i])
  {
    LineStripClean(line);
    SplitAvoids(Strip(line), '\t', '\n');
    SplitAvoids(Strip(line), '\t', '\r');
  }

  /** strip() of such a line holds neither line break. */
  lemma LineStripClean(line: string)
    requires IsLastLine(line)
    ensures '\n' !in Strip(line) && '\r' !in Strip(line)
  {
    StripAvoids(line, '\r');
    if IsLine(line) {
      assert line == line[..|line| - 1] + "\n";
      StripDropsTrailingSpace(line[..|line| - 1], '\n');
      StripAvoids(line[..|line| - 1], '\n');
    } else {
      StripAvoids(line, '\n');
    }
  }

  /** A line that starts with a key and a tab has that key as its first column. */
  lemma KeyFirstField(line: string, key: string)
    requires IsKey(key) && StartsWith(line, key + "\t")
    ensures !IsBlank(line) && Fields(line)[0] == key
  {
    var rest := line[|key|..];
    assert line == key + rest && rest[0] == '\t';
    StripKeepsKey(key, rest);
    var m :| 0 <= m <= |rest| && Strip(key + rest) == key + rest[..m];
    var t := key + rest[..m];
    assert t[..|key|] == key;
    if m > 0 {
      assert t[|key|] == '\t';
      IndexOfFirst(t, '\t', |key|);
    } else {
      assert t == key;
    }
  }

  /** Replacing a line by one with the same first column changes no id after the first line. */
  lemma HeadlessReplace(lines: seq<string>, j: nat, line: string)
    requires j < |lines| && !IsBlank(lines[j]) && !IsBlank(line)
    requires Fields(line)[0] == Fields(lines[j])[0]
    ensures IdsOf(lines[j := line][1..]) == IdsOf(lines[1..])
  {
    HeadlessFewer(lines, j, line);
    HeadlessMore(lines, j, line);
  }

  lemma HeadlessFewer(lines: seq<string>, j: nat, line: string)
    requires j < |lines| && !IsBlank(lines[j])
    requires Fields(line)[0] == Fields(lines[j])[0]
    ensures IdsOf(lines[j := line][1..]) <= IdsOf(lines[1..])
  {
    forall x | x in IdsOf(lines[j := line][1..])
      ensures x in IdsOf(lines[1..])
    {
      var i :| 0 <= i < |lines[j := line][1..]| && !IsBlank(lines[j := line][1..][i])
               && Fields(lines[j := line][1..][i])[0] == x;
      HeadlessFound(lines, j, line, i);
    }
  }

  lemma InIdsOf(lines: seq<string>, k: nat)
    requires k < |lines| && !IsBlank(lines[k])
    ensures Fields(lines[k])[0] in IdsOf(lines)
  {
  }

  /** Element i of an updated sequence without its first element. */
  lemma UpdateTail<T>(xs: seq<T>, j: nat, x: T, i: nat)
    requires j < |xs| && i < |xs| - 1
    ensures i + 1 == j ==> xs[j := x][1..][i] == x && xs[1..][i] == xs[j]
    ensures i + 1 != j ==> xs[j := x][1..][i] == xs[1..][i]
  {
  }

  lemma HeadlessFound(lines: seq<string>, j: nat, line: string, i: nat)
    requires j < |lines| && !IsBlank(lines[j])
    requires Fields(line)[0] == Fields(lines[j])[0]
    requires i < |lines| - 1 && !IsBlank(lines[j := line][1..][i])
    ensures Fields(lines[j := line][1..][i])[0] in IdsOf(lines[1..])
  {
    UpdateTail(lines, j, line, i);
    InIdsOf(lines[1..], i);
  }

  lemma HeadlessMore(lines: seq<string>, j: nat, line: string)
    requires j < |lines| && !IsBlank(line)
    requires Fields(line)[0] == Fields(lines[j])[0]
    ensures IdsOf(lines[1..]) <= IdsOf(lines[j := line][1..])
  {
    forall x | x in IdsOf(lines[1..])
      ensures x in IdsOf(lines[j := line][1..])
    {
      var i :| 0 <= i < |lines[1..]| && !IsBlank(lines[1..][i]) && Fields(lines[1..][i])[0] == x;
      HeadlessKept(lines, j, line, i);
    }
  }

  lemma HeadlessKept(lines: seq<string>, j: nat, line: string, i: nat)
    requires j < |lines| && !IsBlank(line)
    requires Fields(line)[0] == Fields(lines[j])[0]
    requires i < |lines| - 1 && !IsBlank(lines[1..][i])
    ensures Fields(lines[1..][i])[0] in IdsOf(lines[j := line][1..])
  {
    UpdateTail(lines, j, line, i);
    InIdsOf(lines[j := line][1..], i);
  }

  /** Appending a row whose first field is a key adds exactly that id to what the file records. */
  lemma AppendedIdLoads(content: string, fields: seq<string>)
    requires content == [] || content[|content| - 1] == '\n'
    requires |fields| >= 1 && IsKey(fields[0])
    requires forall i :: 0 <= i < |fields| ==> '\n' !in fields[i] && '\r' !in fields[i]
    ensures FileIds(Some(content + Row(fields))) == FileIds(Some(content)) + {fields[0]}
  {
    ReadLinesAppend(content, Row(fields));
    RowIsOneLine(fields);
    RowKey(fields);
    IdsOfAppend(ReadLines(content), [Row(fields)]);
    var one := [Row(fields)];
    assert fields[0] in IdsOf(one) by {
      assert one[0] == Row(fields);
    }
    assert IdsOf(one) == {fields[0]};
  }

  /** The text a run of appended rows leaves after whatever the file held. */
  function Written(rows: seq<seq<string>>): string
    decreases |rows|
  {
    if rows == [] then "" else Written(rows[..|rows| - 1]) + Row(rows[|rows| - 1])
  }

  lemma WrittenEndsLine(rows: seq<seq<string>>)
    ensures var w := Written(rows); w == [] || w[|w| - 1] == '\n'
  {
    if rows != [] {
      RowEndsWithNewline(rows[|rows| - 1]);
    }
  }

  /** The file after rows are appended to it one save at a time: untouched, not even created, when there are none. */
  function AfterRows(f: File, rows: seq<seq<string>>): File {
    if rows == [] then f else Some(Contents(f) + Written(rows))
  }

  /** One more save appends its row to what the earlier ones left. */
  lemma AfterRowsStep(f: File, rows: seq<seq<string>>, row: seq<string>)
    ensures AfterRows(f, rows + [row]) == Some(Contents(AfterRows(f, rows)) + Row(row))
  {
    var all := rows + [row];
    assert all[..|all| - 1] == rows && all[|all| - 1] == row;
    assert Written(all) == Written(rows) + Row(row);
    if rows == [] {
      assert Written(rows) + Row(row) == Row(row);
    } else {
      assert Contents(AfterRows(f, rows)) == Contents(f) + Written(rows);
      AppendAssoc(Contents(f), Written(rows), Row(row));
    }
  }

  /** A row whose first field is a key and whose fields are all clean. */
  predicate Keyed(fields: seq<string>) {
    |fields| >= 1 && IsKey(fields[0]) && forall j :: 0 <= j < |fields| ==> IsClean(fields[j])
  }

  /** The first fields of some rows. */
  function FirstFields(rows: seq<seq<string>>): set<string>
    decreases |rows|
  {
    if rows == [] then {} else FirstFields(rows[..|rows| - 1]) + (if rows[|rows| - 1] == [] then {} else {rows[|rows| - 1][0]})
  }

  /**
   * Keyed rows appended to a file that ends a line add exactly their first fields to the
   * ids the next run loads: this is what makes a run resumable.
   */
  lemma {:induction false} WrittenIds(content: string, rows: seq<seq<string>>)
    requires content == [] || content[|content| - 1] == '\n'
    requires forall i :: 0 <= i < |rows| ==> Keyed(rows[i])
    ensures FileIds(Some(content + Written(rows))) == FileIds(Some(content)) + FirstFields(rows)
    decreases |rows|
  {
    if rows == [] {
      assert content + Written(rows) == content;
    } else {
      var init, last := rows[..|rows| - 1], rows[|rows| - 1];
      assert forall i :: 0 <= i < |init| ==> init[i] == rows[i];
      assert init + [last] == rows;
      WrittenIds(content, init);
      WrittenIdsStep(content, init, last);
    }
  }

  lemma WrittenIdsStep(content: string, init: seq<seq<string>>, last: seq<string>)
    requires content == [] || content[|content| - 1] == '\n'
    requires Keyed(last)
    requires FileIds(Some(content + Written(init))) == FileIds(Some(content)) + FirstFields(init)
    ensures FileIds(Some(content + Written(init + [last]))) == FileIds(Some(content)) + FirstFields(init + [last])
  {
    var rows := init + [last];
    assert rows[..|rows| - 1] == init && rows[|rows| - 1] == last;
    WrittenEndsLine(init);
    var before := content + Written(init);
    AppendAssoc(content, Written(init), Row(last));
    assert Written(rows) == Written(init) + Row(last);
    AppendedIdLoads(before, last);
    UnionStep(FileIds(Some(content)), FirstFields(init), last[0]);
  }

  lemma UnionStep<T>(a: set<T>, b: set<T>, x: T)
    ensures (a + b) + {x} == a + (b + {x})
  {
  }

  /** What a per-line reader keeps, in line order: the Some values of f over the lines. */
  function Gather<T>(f: string -> Option<T>, lines: seq<string>): seq<T> {
    if lines == [] then [] else Listed(f(lines[0])) + Gather(f, lines[1..])
  }

  /** An optional value as a list of zero or one elements. */
  function Listed<T>(o: Option<T>): seq<T> {
    if o.Some? then [o.value] else []
  }

  lemma {:induction false} GatherAppend<T>(f: string -> Option<T>, a: seq<string>, b: seq<string>)
    ensures Gather(f, a + b) == Gather(f, a) + Gather(f, b)
  {
    if a == [] {
      assert a + b == b;
    } else {
      assert (a + b)[1..] == a[1..] + b;
      GatherAppend(f, a[1..], b);
    }
  }

  lemma GatherOneSome<T>(f: string -> Option<T>, x: string, v: T)
    requires f(x) == Some(v)
    ensures Gather(f, [x]) == [v]
  {
    assert Gather(f, [x]) == Listed(f(x)) + Gather(f, []);
  }

  /** A line put after others adds what the reader keeps of it. */
  lemma GatherLast<T>(f: string -> Option<T>, a: seq<string>, x: string)
    ensures Gather(f, a + [x]) == Gather(f, a) + Listed(f(x))
  {
    GatherAppend(f, a, [x]);
    assert Gather(f, [x]) == Listed(f(x)) + Gather(f, []);
  }

  /** One more line adds what the reader keeps of it. */
  lemma GatherSnoc<T>(f: string -> Option<T>, lines: seq<string>, i: nat)
    requires i < |lines|
    ensures Gather(f, lines[..i + 1]) == Gather(f, lines[..i]) + Listed(f(lines[i]))
  {
    assert lines[..i + 1] == lines[..i] + [lines[i]];
    GatherAppend(f, lines[..i], [lines[i]]);
    assert Gather(f, [lines[i]]) == Listed(f(lines[i])) + Gather(f, []);
  }

  /** A line loop that appends, in order, what the reader keeps of each line. */
  method GatherLines<T>(read: string -> Option<T>, lines: seq<string>) returns (xs: seq<T>)
    ensures xs == Gather(read, lines)
  {
    xs := [];
    for i := 0 to |lines|
      invariant xs == Gather(read, lines[..i])
    {
      GatherSnoc(read, lines, i);
      var x := read(lines[i]);
      if x.Some? {
        xs := xs + [x.value];
      }
    }
    assert lines[..|lines|] == lines;
  }

  /** A lowercase hexadecimal digit. */
  predicate IsHexDigit(c: char) {
    ('0' <= c && c <= '9') || ('a' <= c && c <= 'f')
  }

  /** hashlib.sha256(...).hexdigest(): 64 lowercase hexadecimal digits. */
  type Digest = s: string | |s| == 64 && forall i :: 0 <= i < |s| ==> IsHexDigit(s[i])
    witness seq(64, _ => '0')

  /** generate_id_from_text: the first 16 hex digits of the text's SHA-256 digest. */
  function TextId(sha256: string -> Digest, text: string): (id: string)
    ensures |id| == 16 && IsKey(id)
    ensures forall i :: 0 <= i < 16 ==> IsHexDigit(id[i])
  {
    var d := sha256(text);
    assert forall i :: 0 <= i < 16 ==> d[..16][i] == d[i];
    d[..16]
  }
}
