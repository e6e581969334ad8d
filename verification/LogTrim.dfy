/** The generation log of an AI task: appended to, and cut from the front to a size in bytes. */
module LogTrim {
  import opened ByteStrings
  import opened Utf8

  const GENERATION_LOG_MAX_BYTES := 50000
  const NOTICE := "[日志过长，仅保留最后部分]\n"

  function Bytes8(s: string): nat { |Encode(s)| }

  /** The trimming with a given notice: a slice of the last zero bytes is the whole text. */
  function TrimWith(notice: string, content: string, maxBytes: nat): string {
    var encoded := Encode(content);
    if |encoded| <= maxBytes then content
    else
      var tailSize := if maxBytes > Bytes8(notice) then maxBytes - Bytes8(notice) else 0;
      notice + DecodeIgnore(if tailSize == 0 then encoded else encoded[|encoded| - tailSize..])
  }

  /** `_trim_log_bytes`. */
  function TrimLogBytes(content: string, maxBytes: nat): string { TrimWith(NOTICE, content, maxBytes) }

  predicate IsWide(c: char) { 0x800 <= c as int < 0x1_0000 }

  predicate IsNarrow(c: char) { c as int < 0x80 }

  lemma {:induction false} WideBytes(s: string)
    requires forall c | c in s :: IsWide(c)
    ensures Bytes8(s) == 3 * |s|
  {
    if s != "" {
      assert s[0] in s && |EncodeChar(s[0])| == 3;
      WideBytes(s[1..]);
    }
  }

  lemma {:induction false} NarrowBytes(s: string)
    requires forall c | c in s :: IsNarrow(c)
    ensures Bytes8(s) == |s|
  {
    if s != "" {
      assert s[0] in s && |EncodeChar(s[0])| == 1;
      NarrowBytes(s[1..]);
    }
  }

  lemma NoticeBytes()
    ensures Bytes8(NOTICE) == 39
  {
    hide Encode;
    var wide := "日志过长，仅保留最后部分";
    assert NOTICE == ("[" + wide) + "]\n";
    EncodeConcat("[" + wide, "]\n");
    EncodeConcat("[", wide);
    WideBytes(wide);
    NarrowBytes("[");
    NarrowBytes("]\n");
  }

  /** A text that is too long becomes the notice and the longest run of its last whole characters
      that fits into the bytes left. */
  lemma TrimKeepsLongestTail(notice: string, content: string, maxBytes: nat)
    requires Bytes8(content) > maxBytes
    ensures maxBytes > Bytes8(notice) ==>
      TrimWith(notice, content, maxBytes) == notice + content[Fitting(content, maxBytes - Bytes8(notice))..]
    ensures maxBytes <= Bytes8(notice) ==> TrimWith(notice, content, maxBytes) == notice + content
  {
    hide Encode, DecodeIgnore, Fitting;
    if maxBytes > Bytes8(notice) {
      DecodeTail(content, maxBytes - Bytes8(notice));
    } else {
      DecodeOfEncode(content);
    }
  }

  /** The bound is kept exactly when the text fits as it is or the bound leaves room behind the
      notice. */
  lemma TrimBounds(notice: string, content: string, maxBytes: nat)
    ensures Bytes8(TrimWith(notice, content, maxBytes)) <= maxBytes <==>
      Bytes8(content) <= maxBytes || maxBytes > Bytes8(notice)
  {
    hide Encode, DecodeIgnore, Fitting;
    if Bytes8(content) > maxBytes {
      TrimKeepsLongestTail(notice, content, maxBytes);
      if maxBytes > Bytes8(notice) {
        var k := Fitting(content, maxBytes - Bytes8(notice));
        FittingIsLongest(content, maxBytes - Bytes8(notice));
        EncodeConcat(notice, content[k..]);
      } else {
        EncodeConcat(notice, content);
      }
    }
  }

  /** The platform's notice takes 39 bytes. */
  lemma TrimBoundsExactly(content: string, maxBytes: nat)
    ensures Bytes8(TrimLogBytes(content, maxBytes)) <= maxBytes <==> Bytes8(content) <= maxBytes || maxBytes > 39
  {
    hide Encode, TrimWith;
    NoticeBytes();
    TrimBounds(NOTICE, content, maxBytes);
  }

  // ----- appending -----------------------------------------------------------------------------------------------

  /** The log after appending lines, each with its newline, from an empty log. */
  function Log(lines: seq<string>): string {
    if lines == [] then ""
    else TrimLogBytes(Log(lines[..|lines| - 1]) + lines[|lines| - 1], GENERATION_LOG_MAX_BYTES)
  }

  /** All the lines together. */
  function All(lines: seq<string>): string {
    if lines == [] then "" else All(lines[..|lines| - 1]) + lines[|lines| - 1]
  }

  predicate EndsWith(s: string, tail: string) { |tail| <= |s| && s[|s| - |tail|..] == tail }

  /** The log is everything appended so far, or the notice and an end of that. */
  ghost predicate Tells(notice: string, log: string, all: string) {
    log == all || exists tail :: log == notice + tail && EndsWith(all, tail)
  }

  /** What fits behind the notice starts behind an old notice. */
  lemma CutTwice(notice: string, rest: string, size: nat)
    requires Bytes8(notice + rest) > size + Bytes8(notice)
    ensures
      var content := notice + rest;
      var k := Fitting(content, size);
      |notice| <= k <= |content| && content[k..] == rest[k - |notice|..]
  {
    hide Encode, Fitting;
    var content := notice + rest;
    var k := Fitting(content, size);
    FittingIsLongest(content, size);
    EncodeConcat(notice, rest);
    if k < |notice| {
      EndBytes(notice, rest, k);
    }
    assert content[|notice|..] == rest;
  }

  lemma EndBytes(notice: string, rest: string, k: nat)
    requires k <= |notice|
    ensures |Encode((notice + rest)[k..])| >= |Encode(rest)|
  {
    assert (notice + rest)[k..] == notice[k..] + rest;
    EncodeConcat(notice[k..], rest);
  }

  lemma EndExtended(all: string, tail: string, more: string, k: nat)
    requires EndsWith(all, tail) && k <= |tail + more|
    ensures EndsWith(all + more, (tail + more)[k..])
  {
    assert all == all[..|all| - |tail|] + tail;
    assert all + more == all[..|all| - |tail|] + (tail + more);
  }

  /** Appending to a log that tells a prefix tells it all the same: an old notice does not survive
      a second cut. */
  lemma AppendTells(notice: string, log: string, all: string, line: string, maxBytes: nat)
    requires Tells(notice, log, all) && maxBytes > Bytes8(notice)
    ensures Tells(notice, TrimWith(notice, log + line, maxBytes), all + line)
  {
    hide Encode, Fitting, DecodeIgnore, EndsWith;
    var size := maxBytes - Bytes8(notice);
    if Bytes8(log + line) <= maxBytes {
      if log != all {
        var tail :| log == notice + tail && EndsWith(all, tail);
        EndExtended(all, tail, line, 0);
        assert log + line == notice + (tail + line) && (tail + line)[0..] == tail + line;
      }
    } else {
      TrimKeepsLongestTail(notice, log + line, maxBytes);
      if log == all {
        WholeIsEnd(all);
        EndExtended(all, all, line, Fitting(log + line, size));
      } else {
        var tail :| log == notice + tail && EndsWith(all, tail);
        assert log + line == notice + (tail + line);
        CutTwice(notice, tail + line, size);
        EndExtended(all, tail, line, Fitting(log + line, size) - |notice|);
      }
    }
  }

  lemma WholeIsEnd(s: string)
    ensures EndsWith(s, s)
  {}

  /** After any appends the log is at most 50000 bytes, and everything appended, as it is when that
      fits, or the notice and an end of it, cut between characters. */
  lemma {:induction false} LogTells(lines: seq<string>)
    ensures Tells("[日志过长，仅保留最后部分]\n", Log(lines), All(lines)) && Bytes8(Log(lines)) <= 50000
    ensures Bytes8(All(lines)) <= 50000 ==> Log(lines) == All(lines)
  {
    hide Tells, TrimWith, Encode;
    if lines == [] {
      NothingTold();
    } else {
      var init, line := lines[..|lines| - 1], lines[|lines| - 1];
      LogTells(init);
      NoticeBytes();
      AppendTells(NOTICE, Log(init), All(init), line, GENERATION_LOG_MAX_BYTES);
      TrimBoundsExactly(Log(init) + line, GENERATION_LOG_MAX_BYTES);
      EncodeConcat(All(init), line);
      FittingStays(Log(init) + line, GENERATION_LOG_MAX_BYTES);
    }
  }

  lemma FittingStays(content: string, maxBytes: nat)
    ensures Bytes8(content) <= maxBytes ==> TrimLogBytes(content, maxBytes) == content
  {}

  lemma NothingTold()
    ensures Tells(NOTICE, "", "") && Bytes8("") == 0
  {}
}
