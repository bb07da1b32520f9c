/** The append-only journal: one encoded record a line, and what reading it gives back. */
module Journal {
  import opened Text

  /** A line codec: how a record is written on one line, and how a stripped line is parsed. */
  datatype Codec<!R> = Codec(encode: R -> string, decode: string -> Option<R>)

  /** Lines are read back, and are printed without white space at their ends or a line break:
      compact JSON objects escape control characters (section 7 of RFC 8259). */
  ghost predicate Sound<R(!new)>(c: Codec<R>) {
    forall r ::
      && c.decode(c.encode(r)) == Some(r)
      && c.encode(r) != "" && Stripped(c.encode(r)) && '\n' !in c.encode(r)
  }

  // ----- lines of a file

  function FirstBreak(s: string): (k: nat)
    ensures k <= |s| && '\n' !in s[..k] && (k < |s| ==> s[k] == '\n')
  {
    if s == "" || s[0] == '\n' then 0
    else
      var k := FirstBreak(s[1..]);
      assert s[..k + 1] == [s[0]] + s[1..][..k];
      k + 1
  }

  /** The lines of a file, without their breaks; what follows the last break is a line unless it is
      empty. */
  function Lines(s: string): seq<string>
    decreases |s|
  {
    if s == "" then []
    else
      var k := FirstBreak(s);
      if k == |s| then [s] else [s[..k]] + Lines(s[k + 1..])
  }

  predicate Complete(s: string) {
    s == "" || s[|s| - 1] == '\n'
  }

  lemma FirstBreakIsUnique(s: string, k: nat)
    requires k < |s| && s[k] == '\n' && '\n' !in s[..k]
    ensures FirstBreak(s) == k
  {
    var b := FirstBreak(s);
    assert forall i :: 0 <= i < k ==> s[i] in s[..k];
    assert forall i :: 0 <= i < b ==> s[i] in s[..b];
  }

  lemma LinesOfFirst(head: string, rest: string)
    requires '\n' !in head
    ensures Lines(head + "\n" + rest) == [head] + Lines(rest)
  {
    var s := head + "\n" + rest;
    assert s[..|head|] == head && s[|head|] == '\n' && s[|head| + 1..] == rest;
    FirstBreakIsUnique(s, |head|);
  }

  /** A line added to a file of complete lines is one more line. */
  lemma {:induction false} LinesOfAppend(s: string, line: string)
    requires Complete(s) && '\n' !in line
    ensures Lines(s + line + "\n") == Lines(s) + [line]
    decreases |s|
  {
    hide Lines;
    if s == "" {
      assert s + line + "\n" == line + "\n" + "";
      LinesOfFirst(line, "");
      NoLines();
    } else {
      var k := FirstBreak(s);
      assert k < |s|;
      var head, rest := s[..k], s[k + 1..];
      assert s == head + "\n" + rest;
      LinesOfFirst(head, rest);
      LinesOfAppend(rest, line);
      assert s + line + "\n" == head + "\n" + (rest + line + "\n");
      LinesOfFirst(head, rest + line + "\n");
    }
  }

  /** A file that ends in an unfinished line swallows the next record's line into it. */
  lemma UnfinishedLineSwallows(complete: string, unfinished: string, line: string)
    requires Complete(complete) && '\n' !in unfinished && '\n' !in line
    ensures Lines(complete + unfinished + line + "\n") == Lines(complete) + [unfinished + line]
  {
    hide Lines;
    LinesOfAppend(complete, unfinished + line);
    assert complete + (unfinished + line) + "\n" == complete + unfinished + line + "\n";
  }

  /** What follows the last break, and everything before. */
  lemma SplitAtLastBreak(s: string) returns (complete: string, unfinished: string)
    ensures s == complete + unfinished && Complete(complete) && '\n' !in unfinished
    ensures Complete(s) <==> unfinished == ""
  {
    if Complete(s) { return s, ""; }
    complete, unfinished := SplitAtLastBreak(s[..|s| - 1]);
    unfinished := unfinished + [s[|s| - 1]];
  }

  lemma {:induction false} LinesOfUnfinished(complete: string, unfinished: string)
    requires Complete(complete) && '\n' !in unfinished && unfinished != ""
    ensures Lines(complete + unfinished) == Lines(complete) + [unfinished]
    decreases |complete|
  {
    hide Lines;
    if complete == "" {
      NoLines();
      OneLine(unfinished);
      assert complete + unfinished == unfinished;
    } else {
      var k := FirstBreak(complete);
      assert k < |complete|;
      var head, rest := complete[..k], complete[k + 1..];
      assert complete == head + "\n" + rest;
      LinesOfFirst(head, rest);
      LinesOfUnfinished(rest, unfinished);
      assert complete + unfinished == head + "\n" + (rest + unfinished);
      LinesOfFirst(head, rest + unfinished);
    }
  }

  lemma OneLine(s: string)
    requires s != "" && '\n' !in s
    ensures Lines(s) == [s]
  {
    assert FirstBreak(s) == |s|;
  }

  /** Appending a record's line adds that line exactly when the file does not end in an unfinished one. */
  lemma AppendAddsLineExactlyWhen(s: string, line: string)
    requires '\n' !in line
    ensures Lines(s + line + "\n") == Lines(s) + [line] <==> Complete(s)
  {
    hide Lines, Complete;
    if Complete(s) {
      LinesOfAppend(s, line);
    } else {
      var complete, unfinished := SplitAtLastBreak(s);
      UnfinishedLineSwallows(complete, unfinished, line);
      LinesOfUnfinished(complete, unfinished);
    }
  }

  lemma NoLines()
    ensures Lines("") == []
  {
  }

  // ----- reading

  /** The records of some lines, blank lines skipped; a line that does not parse is an error. */
  function Records<R>(c: Codec<R>, lines: seq<string>): Result<seq<R>> {
    if lines == [] then Ok([])
    else
      var front :- Records(c, lines[..|lines| - 1]);
      var stripped := Strip(lines[|lines| - 1]);
      if stripped == "" then Ok(front)
      else if c.decode(stripped).None? then Err("invalid journal line")
      else Ok(front + [c.decode(stripped).value])
  }

  function PrintedLines(lines: seq<string>): nat {
    if lines == [] then 0
    else PrintedLines(lines[..|lines| - 1]) + if Strip(lines[|lines| - 1]) != "" then 1 else 0
  }

  function ReadBack<R>(c: Codec<R>, file: Option<string>): Result<seq<R>> {
    if file.None? then Ok([]) else Records(c, Lines(file.value))
  }

  method ReadRecords<R>(c: Codec<R>, file: Option<string>) returns (r: Result<seq<R>>)
    ensures r == ReadBack(c, file)
  {
    hide Strip, Lines;
    if file.None? { return Ok([]); }
    var lines := Lines(file.value);
    var records: seq<R> := [];
    for i := 0 to |lines|
      invariant Records(c, lines[..i]) == Ok(records)
    {
      assert lines[..i + 1][..i] == lines[..i];
      var stripped := Strip(lines[i]);
      if stripped == "" { continue; }
      var parsed := c.decode(stripped);
      if parsed.None? {
        ErrorsStay(c, lines, i + 1);
        return Err("invalid journal line");
      }
      records := records + [parsed.value];
    }
    assert lines[..|lines|] == lines;
    return Ok(records);
  }

  lemma {:induction false} ErrorsStay<R>(c: Codec<R>, lines: seq<string>, n: nat)
    requires n <= |lines| && Records(c, lines[..n]).Err?
    ensures Records(c, lines) == Err(Records(c, lines[..n]).error)
  {
    hide Strip;
    if n == |lines| {
      assert lines[..n] == lines;
    } else {
      var front := lines[..|lines| - 1];
      assert front[..n] == lines[..n];
      ErrorsStay(c, front, n);
    }
  }

  // ----- the file of a sequence of records

  function LineOf<R>(c: Codec<R>, r: R): string {
    c.encode(r) + "\n"
  }

  function Content<R>(c: Codec<R>, rs: seq<R>): string {
    if rs == [] then "" else Content(c, rs[..|rs| - 1]) + LineOf(c, rs[|rs| - 1])
  }

  /** Reading the file of any records gives exactly those records in order, one a line. */
  lemma {:induction false} ContentReadsBack<R(!new)>(c: Codec<R>, rs: seq<R>)
    requires Sound(c)
    ensures Complete(Content(c, rs))
    ensures Records(c, Lines(Content(c, rs))) == Ok(rs)
    ensures PrintedLines(Lines(Content(c, rs))) == |rs|
  {
    hide Strip, Stripped;
    if rs != [] {
      var front, r := rs[..|rs| - 1], rs[|rs| - 1];
      assert rs == front + [r];
      ContentReadsBack(c, front);
      var before, line := Content(c, front), c.encode(r);
      assert Content(c, rs) == before + line + "\n";
      LinesOfAppend(before, line);
      StripOfStripped(line);
      assert (Lines(before) + [line])[..|Lines(before)|] == Lines(before);
    }
  }

  /** The file of fewer records is the start of the file of more. */
  lemma {:induction false} ContentGrows<R>(c: Codec<R>, rs: seq<R>, k: nat)
    requires k <= |rs|
    ensures Content(c, rs[..k]) <= Content(c, rs)
  {
    if k == |rs| {
      assert rs[..k] == rs;
    } else {
      var front := rs[..|rs| - 1];
      assert front[..k] == rs[..k];
      ContentGrows(c, front, k);
    }
  }

  /** At the length of the file before it, every record's line starts, and it ends in a break. */
  lemma LineAtOffset<R>(c: Codec<R>, rs: seq<R>, k: nat)
    requires k < |rs|
    ensures var offset, line := |Content(c, rs[..k])|, c.encode(rs[k]);
            && offset + |line| < |Content(c, rs)|
            && Content(c, rs)[offset..offset + |line|] == line && Content(c, rs)[offset + |line|] == '\n'
  {
    assert rs[..k + 1][..k] == rs[..k];
    ContentGrows(c, rs, k + 1);
    var upTo := Content(c, rs[..k + 1]);
    assert upTo == Content(c, rs[..k]) + LineOf(c, rs[k]);
    assert Content(c, rs)[..|upTo|] == upTo;
  }

  datatype AppendResult = AppendResult(lineNumber: nat, offset: nat)

  /** Line numbers count from one, offsets are the lengths of all earlier lines with their breaks. */
  predicate Numbered<R>(c: Codec<R>, rs: seq<R>, results: seq<AppendResult>) {
    && |results| == |rs|
    && forall k :: 0 <= k < |rs| ==> results[k] == AppendResult(k + 1, |Content(c, rs[..k])|)
  }

  /** At every result's offset the content holds the encoded record and a line break. */
  predicate Located<R>(c: Codec<R>, rs: seq<R>, results: seq<AppendResult>, content: string) {
    && |results| == |rs|
    && forall k :: 0 <= k < |rs| ==>
         && results[k].offset + |c.encode(rs[k])| < |content|
         && content[results[k].offset..results[k].offset + |c.encode(rs[k])|] == c.encode(rs[k])
         && content[results[k].offset + |c.encode(rs[k])|] == '\n'
  }

  lemma NumberedAfterOne<R>(c: Codec<R>, rs: seq<R>, results: seq<AppendResult>, r: R, result: AppendResult)
    requires Numbered(c, rs, results) && result == AppendResult(|rs| + 1, |Content(c, rs)|)
    ensures Numbered(c, rs + [r], results + [result])
  {
    forall k | 0 <= k <= |rs|
      ensures (results + [result])[k] == AppendResult(k + 1, |Content(c, (rs + [r])[..k])|)
    {
      assert (rs + [r])[..k] == rs[..k];
      if k == |rs| { assert rs[..k] == rs; }
    }
  }

  lemma NumberedIsLocated<R>(c: Codec<R>, rs: seq<R>, results: seq<AppendResult>)
    requires Numbered(c, rs, results)
    ensures Located(c, rs, results, Content(c, rs))
  {
    hide Content;
    forall k | 0 <= k < |rs|
      ensures && results[k].offset + |c.encode(rs[k])| < |Content(c, rs)|
              && Content(c, rs)[results[k].offset..results[k].offset + |c.encode(rs[k])|] == c.encode(rs[k])
              && Content(c, rs)[results[k].offset + |c.encode(rs[k])|] == '\n'
    {
      LineAtOffset(c, rs, k);
    }
  }

  /** A journal file, growing in place; `records` is everything appended since it was fresh. */
  class Writer<R(!new)> {
    const codec: Codec<R>
    var file: Option<string>
    ghost var records: seq<R>

    ghost predicate Valid()
      reads this
    {
      Sound(codec) && Contents() == Content(codec, records)
    }

    function Contents(): string
      reads this
    {
      if file.Some? then file.value else ""
    }

    /** A writer for a path where no file exists yet. */
    constructor (c: Codec<R>)
      requires Sound(c)
      ensures Valid() && records == [] && file == None && codec == c
    {
      codec := c;
      file := None;
      records := [];
    }

    /** A writer for a file that earlier writers left, whose records are `rs`. */
    constructor Reopen(c: Codec<R>, content: string, ghost rs: seq<R>)
      requires Sound(c) && content == Content(c, rs)
      ensures Valid() && records == rs && file == Some(content) && codec == c
    {
      codec := c;
      file := Some(content);
      records := rs;
    }

    /** One more line at the end; everything before it is untouched. */
    method Append(r: R) returns (result: AppendResult)
      requires Valid()
      modifies this
      ensures Valid() && records == old(records) + [r]
      ensures file == Some(old(Contents()) + LineOf(codec, r))
      ensures result == AppendResult(|old(records)| + 1, |old(Contents())|)
    {
      hide Strip, Stripped, Lines;
      var line := codec.encode(r);
      var offset := |Contents()|;
      var number := PrintedLines(Lines(Contents())) + 1;
      ContentReadsBack(codec, records);
      assert (records + [r])[..|records|] == records;
      file := Some(Contents() + line);
      file := Some(Contents() + "\n");
      assert old(Contents()) + line + "\n" == old(Contents()) + LineOf(codec, r);
      records := records + [r];
      result := AppendResult(number, offset);
    }

    method Read() returns (r: Result<seq<R>>)
      requires Valid()
      ensures r == Ok(records)
    {
      ContentReadsBack(codec, records);
      r := ReadRecords(codec, file);
    }

    /** After any appends to a fresh journal: reading gives the records in order, the results are
        numbered, and each record's line is found at its offset. */
    method AppendAll(rs: seq<R>) returns (results: seq<AppendResult>, back: Result<seq<R>>)
      requires Valid() && records == []
      modifies this
      ensures Valid() && records == rs && back == Ok(rs)
      ensures Numbered(codec, rs, results) && Located(codec, rs, results, Contents())
    {
      hide Sound, Content, Numbered, Located;
      results := [];
      assert Numbered(codec, [], []) by { NoneNumbered(codec); }
      for i := 0 to |rs|
        invariant Valid() && records == rs[..i]
        invariant Numbered(codec, rs[..i], results)
      {
        var result := Append(rs[i]);
        NumberedAfterOne(codec, rs[..i], results, rs[i], result);
        results := results + [result];
        assert rs[..i + 1] == rs[..i] + [rs[i]];
      }
      assert rs[..|rs|] == rs;
      NumberedIsLocated(codec, rs, results);
      back := Read();
    }
  }

  lemma NoneNumbered<R>(c: Codec<R>)
    ensures Numbered(c, [], [])
  {
  }

  // ----- what reading skips and refuses

  /** Reading fails exactly when some line that is not blank does not parse; a blank line more changes
      nothing, and a line that parses adds its record at the end. */
  lemma {:induction false} RecordsMean<R>(c: Codec<R>, lines: seq<string>)
    ensures Records(c, lines).Ok? <==>
      forall i :: 0 <= i < |lines| && Strip(lines[i]) != "" ==> c.decode(Strip(lines[i])).Some?
  {
    hide Strip;
    if lines != [] {
      var front, last := lines[..|lines| - 1], lines[|lines| - 1];
      assert lines == front + [last];
      RecordsMean(c, front);
    }
  }

  lemma RecordsOfOneMore<R>(c: Codec<R>, lines: seq<string>, line: string)
    requires Records(c, lines).Ok?
    ensures Records(c, []) == Ok([])
    ensures Strip(line) == "" ==> Records(c, lines + [line]) == Records(c, lines)
    ensures Strip(line) != "" && c.decode(Strip(line)).Some? ==>
      Records(c, lines + [line]) == Ok(Records(c, lines).value + [c.decode(Strip(line)).value])
    ensures PrintedLines([]) == 0
    ensures PrintedLines(lines + [line]) == PrintedLines(lines) + (if Strip(line) == "" then 0 else 1)
  {
    hide Strip;
    assert (lines + [line])[..|lines|] == lines;
  }
}
