/** The tabular file parser: it reads a text file line by line, skips
    everything up to a start line, stops at an end line, drops comment lines
    and hands every other line, split into columns, to a row handler.

    The file is given by its lines. The Java regular-expression engine is
    not interpreted: `RegexEngine` carries whole-line matching and splitting
    as two arbitrary functions, so everything proved here holds whatever
    those functions do. */
module TabularFileParsing {
  import opened Common

  /** String.matches(regex) and String.split(regex) of the Java library. */
  datatype RegexEngine = RegexEngine(
    matches: (string, string) -> bool,      // (line, regex)
    split: (string, string) -> seq<string>) // (line, regex)

  /** The parser configuration; each regular expression may be null. */
  datatype Config = Config(
    startRegex: Option<string>,
    endRegex: Option<string>,
    commentRegex: Option<string>,
    delimiterRegex: Option<string>)

  datatype ParseError = NullConfig | NullHandler

  /** Is `line` the start line? Without a start regex every line is. */
  function IsStart(c: Config, e: RegexEngine, line: string): (r: bool)
    ensures c.startRegex.None? ==> r
  {
    match c.startRegex
    case None => true
    case Some(re) => e.matches(line, re)
  }

  /** Is `line` the end line? Without an end regex no line is. */
  function IsEnd(c: Config, e: RegexEngine, line: string): (r: bool)
    ensures c.endRegex.None? ==> !r
  {
    match c.endRegex
    case None => false
    case Some(re) => e.matches(line, re)
  }

  /** Is `line` a comment? Without a comment regex no line is. */
  function IsComment(c: Config, e: RegexEngine, line: string): (r: bool)
    ensures c.commentRegex.None? ==> !r
  {
    match c.commentRegex
    case None => false
    case Some(re) => e.matches(line, re)
  }

  /** The columns of `line`; without a delimiter regex, the whole line. */
  function Split(c: Config, e: RegexEngine, line: string): (r: seq<string>)
    ensures c.delimiterRegex.None? ==> r == [line]
  {
    match c.delimiterRegex
    case None => [line]
    case Some(re) => e.split(line, re)
  }

  // ---------------------------------------------------------------------
  // The reference definition of what the parser delivers
  // ---------------------------------------------------------------------

  datatype Marker = StartMarker | EndMarker

  predicate IsMarker(c: Config, e: RegexEngine, m: Marker, line: string) {
    match m
    case StartMarker => IsStart(c, e, line)
    case EndMarker => IsEnd(c, e, line)
  }

  /** The index of the first line at or after `from` that is the marker `m`,
      or |lines| when there is none. */
  function FirstMarkerFrom(c: Config, e: RegexEngine, m: Marker, lines: seq<string>, from: nat): (k: nat)
    requires from <= |lines|
    ensures from <= k <= |lines|
    ensures k < |lines| ==> IsMarker(c, e, m, lines[k])
    ensures forall j :: from <= j < k ==> !IsMarker(c, e, m, lines[j])
    decreases |lines| - from
  {
    if from == |lines| then from
    else if IsMarker(c, e, m, lines[from]) then from
    else FirstMarkerFrom(c, e, m, lines, from + 1)
  }

  /** The index of the first line that may be delivered: 0 without a start
      regex, otherwise the line after the first start line (|lines| when
      there is no start line). */
  function BodyBegin(c: Config, e: RegexEngine, lines: seq<string>): (b: nat)
    ensures b <= |lines|
    ensures c.startRegex.None? ==> b == 0
    ensures c.startRegex.Some? ==> 0 < b || |lines| == 0
    ensures forall j :: 0 <= j < b - 1 ==> !IsStart(c, e, lines[j])
  {
    if c.startRegex.None? then 0
    else
      var k := FirstMarkerFrom(c, e, StartMarker, lines, 0);
      if k < |lines| then k + 1 else |lines|
  }

  /** With a start regex, delivery begins right after the first start line,
      or not at all when no line is a start line. */
  lemma BodyBeginFollowsStart(c: Config, e: RegexEngine, lines: seq<string>)
    requires c.startRegex.Some?
    ensures var b := BodyBegin(c, e, lines);
      || (0 < b && IsStart(c, e, lines[b - 1]) && forall j :: 0 <= j < b - 1 ==> !IsStart(c, e, lines[j]))
      || (b == |lines| && forall j :: 0 <= j < |lines| ==> !IsStart(c, e, lines[j]))
  {
  }

  /** The index of the end line (the first end line from BodyBegin on),
      or |lines| when there is none. */
  function BodyEnd(c: Config, e: RegexEngine, lines: seq<string>): (k: nat)
    ensures BodyBegin(c, e, lines) <= k <= |lines|
    ensures k < |lines| ==> IsEnd(c, e, lines[k])
    ensures forall j :: BodyBegin(c, e, lines) <= j < k ==> !IsEnd(c, e, lines[j])
  {
    FirstMarkerFrom(c, e, EndMarker, lines, BodyBegin(c, e, lines))
  }

  /** The split forms of the non-comment lines of `ls`, in order. */
  function RowsOf(c: Config, e: RegexEngine, ls: seq<string>): (rows: seq<seq<string>>)
    ensures |rows| <= |ls|
  {
    if ls == [] then []
    else
      var last := ls[|ls| - 1];
      RowsOf(c, e, ls[..|ls| - 1]) + (if IsComment(c, e, last) then [] else [Split(c, e, last)])
  }

  /** The rows a parse of `lines` delivers to the handler, in order. */
  function Rows(c: Config, e: RegexEngine, lines: seq<string>): seq<seq<string>> {
    RowsOf(c, e, lines[BodyBegin(c, e, lines)..BodyEnd(c, e, lines)])
  }

  // ---------------------------------------------------------------------
  // The parser and the row handler
  // ---------------------------------------------------------------------

  /** The row handler; the model records every row it is handed. */
  class TabularFileHandler {
    var rows: seq<seq<string>>

    constructor ()
      ensures rows == []
    {
      rows := [];
    }

    method StartRow(row: seq<string>)
      modifies this
      ensures rows == old(rows) + [row]
    {
      rows := rows + [row];
    }
  }

  class TabularFileParser {
    var config: Option<Config>

    constructor ()
      ensures config == None
    {
      config := None;
    }

    /** Parses the file whose lines are `lines` as `config` says and hands
        every delivered row to `handler`. A null configuration or handler is
        rejected before anything is read. */
    method Parse(config: Option<Config>, handler: TabularFileHandler?, engine: RegexEngine, lines: seq<string>)
      returns (outcome: Outcome<ParseError>)
      modifies this, handler
      ensures config.None? ==> outcome == Fail(NullConfig) && this.config == old(this.config)
      ensures config.None? && handler != null ==> handler.rows == old(handler.rows)
      ensures config.Some? && handler == null ==> outcome == Fail(NullHandler) && this.config == old(this.config)
      ensures config.Some? && handler != null ==>
        && outcome == Pass
        && this.config == config
        && handler.rows == old(handler.rows) + Rows(config.value, engine, lines)
    {
      if config.None? {
        return Fail(NullConfig);
      }
      if handler == null {
        return Fail(NullHandler);
      }
      this.config := config;
      var c := config.value;

      var started := c.startRegex.None?;
      var ended := false;
      ghost var begin := BodyBegin(c, engine, lines);
      ghost var end := BodyEnd(c, engine, lines);
      // the rows of lines[begin..upto] have been delivered
      ghost var upto := begin;
      var i := 0;
      while i < |lines| && !ended
        invariant 0 <= i <= |lines|
        invariant this.config == config
        invariant !started ==> c.startRegex.Some? && i <= FirstMarkerFrom(c, engine, StartMarker, lines, 0) && upto == begin
        invariant started ==> begin <= i
        invariant started && !ended ==> i <= end && upto == i
        invariant ended ==> started && end < |lines| && i == end + 1 && upto == end
        invariant begin <= upto <= end
        invariant handler.rows == old(handler.rows) + RowsOf(c, engine, lines[begin..upto])
      {
        var line := lines[i];
        if started {
          EndLineAt(c, engine, lines, i);
          ended := IsEnd(c, engine, line);
          if !ended {
            RowsOfSnoc(c, engine, lines, begin, i);
            if !IsComment(c, engine, line) {
              ghost var delivered := RowsOf(c, engine, lines[begin..i]);
              handler.StartRow(Split(c, engine, line));
              assert old(handler.rows) + delivered + [Split(c, engine, line)] ==
                old(handler.rows) + (delivered + [Split(c, engine, line)]);
            }
            upto := i + 1;
          }
        } else {
          StartLineAt(c, engine, lines, i);
          started := IsStart(c, engine, line);
          if started {
            upto := i + 1;
          }
        }
        i := i + 1;
      }
      assert upto == end;
      return Pass;
    }
  }

  /** While the parser looks for the start line, line `i` is the start
      line exactly when delivery begins after it. */
  lemma StartLineAt(c: Config, e: RegexEngine, lines: seq<string>, i: nat)
    requires c.startRegex.Some? && i < |lines| && i <= FirstMarkerFrom(c, e, StartMarker, lines, 0)
    ensures IsStart(c, e, lines[i]) ==> BodyBegin(c, e, lines) == i + 1
    ensures !IsStart(c, e, lines[i]) ==> i + 1 <= FirstMarkerFrom(c, e, StartMarker, lines, 0)
  {
  }

  /** Once delivery has begun, line `i` is the end line exactly when it is
      an end line. */
  lemma EndLineAt(c: Config, e: RegexEngine, lines: seq<string>, i: nat)
    requires BodyBegin(c, e, lines) <= i <= BodyEnd(c, e, lines) && i < |lines|
    ensures IsEnd(c, e, lines[i]) <==> i == BodyEnd(c, e, lines)
  {
  }

  /** The rows of a stretch grow by line `i` when the stretch does. */
  lemma RowsOfSnoc(c: Config, e: RegexEngine, lines: seq<string>, b: nat, i: nat)
    requires b <= i < |lines|
    ensures RowsOf(c, e, lines[b..i + 1]) ==
      RowsOf(c, e, lines[b..i]) + (if IsComment(c, e, lines[i]) then [] else [Split(c, e, lines[i])])
  {
    assert lines[b..i + 1][..i - b] == lines[b..i];
  }

  // ---------------------------------------------------------------------
  // Properties of the delivered rows
  // ---------------------------------------------------------------------

  /** Rows of consecutive stretches of lines come out in file order. */
  lemma {:induction false} RowsOfAppend(c: Config, e: RegexEngine, xs: seq<string>, ys: seq<string>)
    ensures RowsOf(c, e, xs + ys) == RowsOf(c, e, xs) + RowsOf(c, e, ys)
    decreases |ys|
  {
    if ys == [] {
      assert xs + ys == xs;
    } else {
      var ys' := ys[..|ys| - 1];
      assert (xs + ys)[..|xs + ys| - 1] == xs + ys';
      RowsOfAppend(c, e, xs, ys');
    }
  }

  /** A row is delivered from a stretch of lines exactly when it is the
      split form of one of its non-comment lines. */
  lemma {:induction false} RowsOfMembers(c: Config, e: RegexEngine, ls: seq<string>, row: seq<string>)
    ensures row in RowsOf(c, e, ls) <==> exists j :: 0 <= j < |ls| && !IsComment(c, e, ls[j]) && row == Split(c, e, ls[j])
  {
    if ls != [] {
      var init := ls[..|ls| - 1];
      RowsOfMembers(c, e, init, row);
      if row in RowsOf(c, e, init) {
        var j :| 0 <= j < |init| && !IsComment(c, e, init[j]) && row == Split(c, e, init[j]);
        assert ls[j] == init[j];
      }
      if exists j :: 0 <= j < |ls| && !IsComment(c, e, ls[j]) && row == Split(c, e, ls[j]) {
        var j :| 0 <= j < |ls| && !IsComment(c, e, ls[j]) && row == Split(c, e, ls[j]);
        if j < |init| {
          assert init[j] == ls[j];
        }
      }
    }
  }

  /** Without a comment regex, every line of a stretch yields one row. */
  lemma {:induction false} RowsOfWithoutComments(c: Config, e: RegexEngine, ls: seq<string>)
    requires c.commentRegex.None?
    ensures |RowsOf(c, e, ls)| == |ls|
    ensures forall j :: 0 <= j < |ls| ==> RowsOf(c, e, ls)[j] == Split(c, e, ls[j])
  {
    if ls != [] {
      var init := ls[..|ls| - 1];
      RowsOfWithoutComments(c, e, init);
      assert forall j :: 0 <= j < |init| ==> init[j] == ls[j];
    }
  }

  /** With no start, end or comment regex the parser delivers every line, in
      order, as a row. */
  lemma DeliversEveryLineWithoutMarkers(c: Config, e: RegexEngine, lines: seq<string>)
    requires c.startRegex.None? && c.endRegex.None? && c.commentRegex.None?
    ensures |Rows(c, e, lines)| == |lines|
    ensures forall j :: 0 <= j < |lines| ==> Rows(c, e, lines)[j] == Split(c, e, lines[j])
  {
    assert lines[0..|lines|] == lines;
    RowsOfWithoutComments(c, e, lines);
  }

  /** Without a start regex the first line is delivered unless it is an end
      line or a comment. */
  lemma FirstLineDeliveredWithoutStartRegex(c: Config, e: RegexEngine, lines: seq<string>)
    requires c.startRegex.None? && |lines| > 0
    requires !IsEnd(c, e, lines[0]) && !IsComment(c, e, lines[0])
    ensures |Rows(c, e, lines)| > 0 && Rows(c, e, lines)[0] == Split(c, e, lines[0])
  {
    var end := BodyEnd(c, e, lines);
    var body := lines[0..end];
    assert body == [lines[0]] + body[1..];
    RowsOfAppend(c, e, [lines[0]], body[1..]);
    assert RowsOf(c, e, [lines[0]]) == [Split(c, e, lines[0])] by {
      assert [lines[0]][..0] == [];
    }
  }

  /** The end check comes before the comment check: the first end line
      after the beginning of delivery ends the parse even when it is also a
      comment, so the rows are those of the lines before it. */
  lemma EndCheckedBeforeComment(c: Config, e: RegexEngine, lines: seq<string>, k: nat)
    requires BodyBegin(c, e, lines) <= k < |lines|
    requires IsEnd(c, e, lines[k]) && IsComment(c, e, lines[k])
    requires forall j :: BodyBegin(c, e, lines) <= j < k ==> !IsEnd(c, e, lines[j])
    ensures BodyEnd(c, e, lines) == k
    ensures Rows(c, e, lines) == RowsOf(c, e, lines[BodyBegin(c, e, lines)..k])
  {
  }

  /** Without a delimiter regex every delivered row is one column: a whole
      line of the file. */
  lemma SingleColumnWithoutDelimiter(c: Config, e: RegexEngine, lines: seq<string>, row: seq<string>)
    requires c.delimiterRegex.None?
    requires row in Rows(c, e, lines)
    ensures |row| == 1 && row[0] in lines
  {
    var body := lines[BodyBegin(c, e, lines)..BodyEnd(c, e, lines)];
    RowsOfMembers(c, e, body, row);
    var j :| 0 <= j < |body| && !IsComment(c, e, body[j]) && row == Split(c, e, body[j]);
    assert body[j] == lines[BodyBegin(c, e, lines) + j];
  }

  /** The first marker line found in `lines` is also the first one found
      when more lines follow. */
  lemma {:induction false} FirstMarkerExtends(c: Config, e: RegexEngine, m: Marker, lines: seq<string>, rest: seq<string>, from: nat)
    requires from <= |lines|
    requires FirstMarkerFrom(c, e, m, lines, from) < |lines|
    ensures FirstMarkerFrom(c, e, m, lines + rest, from) == FirstMarkerFrom(c, e, m, lines, from)
    decreases |lines| - from
  {
    assert (lines + rest)[from] == lines[from];
    if !IsMarker(c, e, m, lines[from]) {
      FirstMarkerExtends(c, e, m, lines, rest, from + 1);
    }
  }

  /** Searching after a prefix finds the same line, shifted by the prefix. */
  lemma {:induction false} FirstMarkerShifts(c: Config, e: RegexEngine, m: Marker, pre: seq<string>, lines: seq<string>, from: nat)
    requires from <= |lines|
    ensures FirstMarkerFrom(c, e, m, pre + lines, |pre| + from) == |pre| + FirstMarkerFrom(c, e, m, lines, from)
    decreases |lines| - from
  {
    if from < |lines| {
      assert (pre + lines)[|pre| + from] == lines[from];
      if !IsMarker(c, e, m, lines[from]) {
        FirstMarkerShifts(c, e, m, pre, lines, from + 1);
      }
    }
  }

  /** Parsing stops at the end line: neither it nor anything after it is
      delivered, so replacing everything after it changes nothing. */
  lemma LinesAfterEndIgnored(c: Config, e: RegexEngine, lines: seq<string>, rest: seq<string>)
    requires BodyEnd(c, e, lines) < |lines|
    ensures Rows(c, e, lines[..BodyEnd(c, e, lines) + 1] + rest) == Rows(c, e, lines)
  {
    var end := BodyEnd(c, e, lines);
    var head := lines[..end + 1];
    assert lines == head + lines[end + 1..];
    // The start search stops inside `head`, in both files.
    if c.startRegex.Some? {
      assert FirstMarkerFrom(c, e, StartMarker, lines, 0) < end + 1;
      assert forall j :: 0 <= j < |head| ==> head[j] == lines[j];
      assert FirstMarkerFrom(c, e, StartMarker, head, 0) < |head| by {
        FirstMarkerBound(c, e, StartMarker, head, lines[end + 1..], 0);
      }
      FirstMarkerExtends(c, e, StartMarker, head, rest, 0);
      FirstMarkerExtends(c, e, StartMarker, head, lines[end + 1..], 0);
    }
    var begin := BodyBegin(c, e, lines);
    assert BodyBegin(c, e, head + rest) == begin;
    assert BodyBegin(c, e, head) == begin;
    FirstMarkerBound(c, e, EndMarker, head, lines[end + 1..], begin);
    FirstMarkerExtends(c, e, EndMarker, head, rest, begin);
    FirstMarkerExtends(c, e, EndMarker, head, lines[end + 1..], begin);
    assert (head + rest)[begin..end] == lines[begin..end];
  }

  /** A marker found within a prefix of the lines is found within the prefix
      alone. */
  lemma {:induction false} FirstMarkerBound(c: Config, e: RegexEngine, m: Marker, head: seq<string>, tail: seq<string>, from: nat)
    requires from <= |head|
    requires FirstMarkerFrom(c, e, m, head + tail, from) < |head|
    ensures FirstMarkerFrom(c, e, m, head, from) == FirstMarkerFrom(c, e, m, head + tail, from)
    decreases |head| - from
  {
    assert (head + tail)[from] == head[from];
    if !IsMarker(c, e, m, head[from]) {
      FirstMarkerBound(c, e, m, head, tail, from + 1);
    }
  }

  /** Every line up to and including the first start line is skipped: the
      parse delivers what a parse of the remaining lines without a start
      regex delivers. */
  lemma StartRegionSkipped(c: Config, e: RegexEngine, pre: seq<string>, start: string, post: seq<string>)
    requires c.startRegex.Some?
    requires forall j :: 0 <= j < |pre| ==> !IsStart(c, e, pre[j])
    requires IsStart(c, e, start)
    ensures Rows(c, e, pre + [start] + post) == Rows(c.(startRegex := None), e, post)
  {
    var lines := pre + [start] + post;
    var head := pre + [start];
    assert lines == head + post;
    var c' := c.(startRegex := None);
    // The first start line is `start`.
    assert FirstMarkerFrom(c, e, StartMarker, head, 0) == |pre| by {
      FirstMarkerAt(c, e, StartMarker, head, |pre|);
    }
    FirstMarkerExtends(c, e, StartMarker, head, post, 0);
    assert BodyBegin(c, e, lines) == |head|;
    // The end search runs over `post` alone, and end-ness does not depend on the start regex.
    FirstMarkerShifts(c, e, EndMarker, head, post, 0);
    EndSearchIgnoresStart(c, c', e, post, 0);
    assert BodyEnd(c, e, lines) == |head| + BodyEnd(c', e, post);
    assert lines[|head|..|head| + BodyEnd(c', e, post)] == post[0..BodyEnd(c', e, post)];
    RowsOfIgnoresStart(c, c', e, post[0..BodyEnd(c', e, post)]);
  }

  /** The first marker is at `k` when the marker is at `k` and nowhere before. */
  lemma {:induction false} FirstMarkerAt(c: Config, e: RegexEngine, m: Marker, lines: seq<string>, k: nat)
    requires k < |lines| && IsMarker(c, e, m, lines[k])
    requires forall j :: 0 <= j < k ==> !IsMarker(c, e, m, lines[j])
    ensures FirstMarkerFrom(c, e, m, lines, 0) == k
  {
  }

  /** Searching for end lines does not look at the start regex. */
  lemma {:induction false} EndSearchIgnoresStart(c: Config, c': Config, e: RegexEngine, lines: seq<string>, from: nat)
    requires c'.endRegex == c.endRegex
    requires from <= |lines|
    ensures FirstMarkerFrom(c, e, EndMarker, lines, from) == FirstMarkerFrom(c', e, EndMarker, lines, from)
    decreases |lines| - from
  {
    if from < |lines| && !IsEnd(c, e, lines[from]) {
      EndSearchIgnoresStart(c, c', e, lines, from + 1);
    }
  }

  /** Which lines are comments and how lines split do not depend on the
      start regex. */
  lemma {:induction false} RowsOfIgnoresStart(c: Config, c': Config, e: RegexEngine, ls: seq<string>)
    requires c'.commentRegex == c.commentRegex && c'.delimiterRegex == c.delimiterRegex
    ensures RowsOf(c, e, ls) == RowsOf(c', e, ls)
  {
    if ls != [] {
      RowsOfIgnoresStart(c, c', e, ls[..|ls| - 1]);
    }
  }
}
