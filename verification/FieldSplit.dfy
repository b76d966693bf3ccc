/**
 * The quote-aware field splitter (src/sassessment/legacy_logs/parsers.py): cuts at
 * every "- " that stands outside quotes.
 */
module FieldSplit {
  import opened Text

  // ---- specification -------------------------------------------------------

  /** Puts `front` before the first of `segments`. */
  function Prepend(front: string, segments: seq<string>): seq<string>
    requires |segments| > 0
  {
    [front + segments[0]] + segments[1..]
  }

  predicate CutHere(text: string, inQuote: bool) {
    !inQuote && |text| >= 2 && text[0] == '-' && text[1] == ' '
  }

  /** The untrimmed segments of `text`, entered inside or outside quotes. */
  function Segments(text: string, inQuote: bool): (r: seq<string>)
    ensures |r| > 0
    decreases |text|
  {
    if text == "" then [""]
    else if CutHere(text, inQuote) then [""] + Segments(text[2..], false)
    else Prepend([text[0]], Segments(text[1..], inQuote != (text[0] == '"')))
  }

  function StripAll(parts: seq<string>): seq<string> {
    seq(|parts|, i requires 0 <= i < |parts| => Strip(parts[i]))
  }

  function SplitFields(text: string): seq<string> {
    StripAll(Segments(text, false))
  }

  // ---- the loop ------------------------------------------------------------

  method SplitDelimitedFields(text: string) returns (segments: seq<string>)
    ensures segments == SplitFields(text)
  {
    hide Segments, StripAll;
    segments := [];
    var buffer := "";
    var inQuote := false;
    var index := 0;
    assert text[0..] == text;
    PrependNothing(Segments(text, false));
    while index < |text|
      invariant 0 <= index <= |text|
      invariant segments + StripAll(Prepend(buffer, Segments(text[index..], inQuote))) == SplitFields(text)
    {
      var c := text[index];
      ghost var rest := text[index..];
      if c == '"' {
        PrependOne(buffer, rest, inQuote);
        inQuote := !inQuote;
        buffer := buffer + [c];
        index := index + 1;
        continue;
      }
      if !inQuote && c == '-' && index + 1 < |text| && text[index + 1] == ' ' {
        CutOne(buffer, rest);
        ghost var tail := StripAll(Prepend("", Segments(rest[2..], false)));
        assert segments + ([Strip(buffer)] + tail) == segments + [Strip(buffer)] + tail;
        segments := segments + [Strip(buffer)];
        buffer := "";
        index := index + 2;
        continue;
      }
      PrependOne(buffer, rest, inQuote);
      buffer := buffer + [c];
      index := index + 1;
    }
    assert text[index..] == "";
    NothingLeft(buffer, inQuote);
    segments := segments + [Strip(buffer)];
  }

  lemma NothingLeft(buffer: string, inQuote: bool)
    ensures StripAll(Prepend(buffer, Segments("", inQuote))) == [Strip(buffer)]
  {
    assert buffer + "" == buffer;
  }

  lemma PrependNothing(segments: seq<string>)
    requires |segments| > 0
    ensures Prepend("", segments) == segments
  {
    assert "" + segments[0] == segments[0];
  }

  lemma PrependOne(buffer: string, rest: string, inQuote: bool)
    requires rest != "" && !CutHere(rest, inQuote)
    ensures Prepend(buffer, Segments(rest, inQuote))
         == Prepend(buffer + [rest[0]], Segments(rest[1..], inQuote != (rest[0] == '"')))
  {
    var tail := Segments(rest[1..], inQuote != (rest[0] == '"'));
    assert buffer + ([rest[0]] + tail[0]) == buffer + [rest[0]] + tail[0];
  }

  lemma CutOne(buffer: string, rest: string)
    requires CutHere(rest, false)
    ensures StripAll(Prepend(buffer, Segments(rest, false)))
         == [Strip(buffer)] + StripAll(Prepend("", Segments(rest[2..], false)))
  {
    var tail := Segments(rest[2..], false);
    PrependNothing(tail);
    PrependCut(buffer, tail);
    StripAllCons(buffer, tail);
  }

  lemma PrependCut(buffer: string, tail: seq<string>)
    ensures Prepend(buffer, [""] + tail) == [buffer] + tail
  {
    assert buffer + "" == buffer;
    assert ([""] + tail)[1..] == tail;
  }

  lemma StripAllCons(first: string, rest: seq<string>)
    ensures StripAll([first] + rest) == [Strip(first)] + StripAll(rest)
  {
  }

  // ---- what the segments are -----------------------------------------------

  /** No "- " outside quotes. */
  predicate CutFree(s: string, inQuote: bool) {
    s == "" || (!CutHere(s, inQuote) && CutFree(s[1..], inQuote != (s[0] == '"')))
  }

  predicate QuoteAfter(s: string, inQuote: bool) {
    inQuote != (Quotes(s) % 2 == 1)
  }

  /** The segments joined again give the text. */
  lemma {:induction false} SegmentsRejoin(text: string, inQuote: bool)
    ensures Join(Segments(text, inQuote), "- ") == text
    decreases |text|
  {
    if text != "" {
      if CutHere(text, inQuote) {
        SegmentsRejoin(text[2..], false);
        assert ([""] + Segments(text[2..], false))[1..] == Segments(text[2..], false);
        assert text == "- " + text[2..];
      } else {
        var q := inQuote != (text[0] == '"');
        SegmentsRejoin(text[1..], q);
        JoinPrepend([text[0]], Segments(text[1..], q));
        assert text == [text[0]] + text[1..];
      }
    }
  }

  lemma JoinPrepend(front: string, segments: seq<string>)
    requires |segments| > 0
    ensures Join(Prepend(front, segments), "- ") == front + Join(segments, "- ")
  {
    if |segments| > 1 {
      JoinPrependMany(front, segments[0], segments[1..]);
      assert segments == [segments[0]] + segments[1..];
    } else {
      assert segments == [segments[0]];
    }
  }

  lemma JoinPrependMany(front: string, first: string, rest: seq<string>)
    requires |rest| > 0
    ensures Join([front + first] + rest, "- ") == front + Join([first] + rest, "- ")
  {
    JoinCons(first, rest, "- ");
    JoinCons(front + first, rest, "- ");
    Associate(front, first, "- ", Join(rest, "- "));
  }

  /** Every cut stands outside quotes, and no "- " outside quotes is left uncut. */
  ghost predicate ProperlyCut(segments: seq<string>, inQuote: bool) {
    && |segments| > 0
    && CutFree(segments[0], inQuote)
    && (|segments| > 1 ==> !QuoteAfter(segments[0], inQuote) && ProperlyCut(segments[1..], false))
  }

  lemma {:induction false} SegmentsProperlyCut(text: string, inQuote: bool)
    ensures ProperlyCut(Segments(text, inQuote), inQuote)
    decreases |text|
  {
    if text != "" {
      if CutHere(text, inQuote) {
        SegmentsProperlyCut(text[2..], false);
        assert ([""] + Segments(text[2..], false))[1..] == Segments(text[2..], false);
      } else {
        var q := inQuote != (text[0] == '"');
        var tail := Segments(text[1..], q);
        SegmentsProperlyCut(text[1..], q);
        var all := Prepend([text[0]], tail);
        assert all[0][1..] == tail[0] && all[1..] == tail[1..];
        SegmentsRejoin(text[1..], q);
        HeadOfJoin(tail);
        assert |tail[0]| > 0 ==> text[1] == tail[0][0];
        assert !CutHere(all[0], inQuote);
      }
    }
  }

  lemma HeadOfJoin(segments: seq<string>)
    requires |segments| > 0
    ensures segments[0] <= Join(segments, "- ")
  {
  }

  /** Properly cut segments are the only ones that join to a text. */
  lemma {:induction false} SegmentsOfJoin(segments: seq<string>, inQuote: bool)
    requires ProperlyCut(segments, inQuote)
    ensures Segments(Join(segments, "- "), inQuote) == segments
    decreases |segments|, |segments[0]|
  {
    var text := Join(segments, "- ");
    var first := segments[0];
    if first == "" {
      if |segments| > 1 {
        assert text == "- " + Join(segments[1..], "- ");
        assert text[2..] == Join(segments[1..], "- ");
        SegmentsOfJoin(segments[1..], false);
      } else {
        assert segments == [""];
      }
    } else {
      var q := inQuote != (first[0] == '"');
      var shorter := [first[1..]] + segments[1..];
      assert Prepend([first[0]], shorter) == segments by {
        assert first == [first[0]] + first[1..];
      }
      JoinPrepend([first[0]], shorter);
      assert text == [first[0]] + Join(shorter, "- ");
      assert shorter[1..] == segments[1..];
      assert !CutHere(text, inQuote) by {
        HeadOfJoin(shorter);
        if |first| == 1 && |segments| > 1 {
          assert Join(shorter, "- ") == "- " + Join(segments[1..], "- ");
        } else if |first| > 1 {
          assert text[1] == first[1];
        }
      }
      assert text[1..] == Join(shorter, "- ");
      SegmentsOfJoin(shorter, q);
    }
  }

  /** Segmentation is exactly the inverse of joining with "- ", on properly cut segments. */
  lemma SegmentsAreTheInverse(text: string, segments: seq<string>)
    ensures Segments(text, false) == segments <==> ProperlyCut(segments, false) && Join(segments, "- ") == text
  {
    SegmentsRejoin(text, false);
    SegmentsProperlyCut(text, false);
    if ProperlyCut(segments, false) {
      SegmentsOfJoin(segments, false);
    }
  }

  // ---- fields joined with " - " --------------------------------------------

  /** The untrimmed segments that " - " between `fields` leads to. */
  function Padded(fields: seq<string>): seq<string> {
    if |fields| <= 1 then fields else [fields[0] + " "] + Padded(fields[1..])
  }

  predicate AllTrimmed(fields: seq<string>) {
    forall i :: 0 <= i < |fields| ==> Trimmed(fields[i])
  }

  /**
   * Every field but the last is quote-balanced; no field holds an unquoted "- ", and
   * none but the last ends in an unquoted '-'.
   */
  predicate SplitSafe(fields: seq<string>) {
    && |fields| > 0
    && (if |fields| == 1 then CutFree(fields[0], false)
        else Balanced(fields[0]) && CutFree(fields[0] + " ", false) && SplitSafe(fields[1..]))
  }

  lemma {:induction false} JoinPadded(fields: seq<string>)
    requires |fields| > 0
    ensures |Padded(fields)| == |fields|
    ensures Join(Padded(fields), "- ") == Join(fields, " - ")
  {
    if |fields| > 1 {
      JoinPadded(fields[1..]);
      assert Padded(fields)[1..] == Padded(fields[1..]);
      assert (fields[0] + " ") + "- " == fields[0] + " - ";
    }
  }

  lemma {:induction false} StripPaddedFields(fields: seq<string>)
    requires AllTrimmed(fields)
    ensures StripAll(Padded(fields)) == fields
  {
    if |fields| == 1 {
      assert "" + fields[0] + "" == fields[0];
      StripPadded("", fields[0], "");
    } else if |fields| > 1 {
      StripPaddedFields(fields[1..]);
      assert "" + fields[0] + " " == fields[0] + " ";
      StripPadded("", fields[0], " ");
      assert StripAll(Padded(fields)) == [Strip(fields[0] + " ")] + StripAll(Padded(fields[1..]));
    }
  }

  lemma {:induction false} SafeIsProperlyCut(fields: seq<string>)
    requires |fields| > 0
    ensures SplitSafe(fields) <==> ProperlyCut(Padded(fields), false)
  {
    if |fields| > 1 {
      SafeIsProperlyCut(fields[1..]);
      assert Padded(fields)[1..] == Padded(fields[1..]);
      QuotesAppend(fields[0], " ");
    }
  }

  /** A segment list that trims to `fields` and joins to their text is the padded one. */
  lemma {:induction false} TrimmedSegmentsUnique(raw: seq<string>, fields: seq<string>)
    requires |fields| > 0 && StripAll(raw) == fields
    requires Join(raw, "- ") == Join(fields, " - ")
    ensures raw == Padded(fields)
  {
    assert |raw| == |StripAll(raw)|;
    if |fields| == 1 {
      assert raw[0] == Join(raw, "- ") == fields[0];
    } else {
      var f, r := fields[0], raw[0];
      assert Strip(r) == f;
      var before, after := StripParts(r);
      var text := Join(fields, " - ");
      var x, y := Join(raw[1..], "- "), Join(fields[1..], " - ");
      assert text == f + " - " + y;
      assert text == r + "- " + x;
      FirstSegment(before, f, after, x, y);
      assert r == f + " ";
      assert text == r + "- " + y;
      assert x == y by {
        assert text[|r| + 2..] == x;
        assert text[|r| + 2..] == y;
      }
      assert StripAll(raw)[1..] == StripAll(raw[1..]);
      TrimmedSegmentsUnique(raw[1..], fields[1..]);
    }
  }

  lemma FirstSegment(before: string, f: string, after: string, x: string, y: string)
    requires AllSpace(before) && AllSpace(after) && Trimmed(f)
    requires before + f + after + "- " + x == f + " - " + y
    ensures before + f + after == f + " "
  {
    var text := f + " - " + y;
    var other := before + f + after + "- " + x;
    assert !IsSpace('-');
    assert before != "" ==> other[0] == before[0];
    assert f != "" ==> text[0] == f[0] && before == "";
    var pad := before + after;
    assert f != "" ==> before + f + after == f + after;
    assert f == "" ==> before + f + after == before + after;
    assert other == f + pad + "- " + x;
    assert text[|f|] == ' ' && text[|f| + 1] == '-';
    assert other[|f| + |pad|] == '-';
    assert forall i :: 0 <= i < |pad| ==> other[|f| + i] == pad[i];
    assert |pad| == 1 && pad[0] == ' ';
  }

  /** Splitting undoes joining with " - " exactly for non-empty lists of trimmed, split-safe fields. */
  lemma SplitInvertsJoin(fields: seq<string>)
    ensures SplitFields(Join(fields, " - ")) == fields <==> |fields| > 0 && AllTrimmed(fields) && SplitSafe(fields)
  {
    var text := Join(fields, " - ");
    if |fields| > 0 && AllTrimmed(fields) && SplitSafe(fields) {
      SafeIsProperlyCut(fields);
      JoinPadded(fields);
      SegmentsOfJoin(Padded(fields), false);
      StripPaddedFields(fields);
    }
    if SplitFields(text) == fields {
      var raw := Segments(text, false);
      assert |StripAll(raw)| == |raw|;
      SegmentsRejoin(text, false);
      SegmentsProperlyCut(text, false);
      TrimmedSegmentsUnique(raw, fields);
      SafeIsProperlyCut(fields);
      forall i | 0 <= i < |fields|
        ensures Trimmed(fields[i])
      {
        assert fields[i] == Strip(raw[i]);
        var _, _ := StripParts(raw[i]);
      }
    }
  }

  // ---- splitting piece by piece --------------------------------------------

  /** Leading spaces of the text do not matter. */
  lemma {:induction false} SplitIgnoresLeadingSpace(pad: string, text: string)
    requires AllSpace(pad)
    ensures SplitFields(pad + text) == SplitFields(text)
  {
    if pad == "" {
      assert pad + text == text;
    } else {
      assert (pad + text)[1..] == pad[1..] + text;
      SplitIgnoresLeadingSpace(pad[1..], text);
      var tail := Segments(pad[1..] + text, false);
      assert Segments(pad + text, false) == Prepend([pad[0]], tail);
      LStripPad([pad[0]], tail[0]);
      assert Prepend([pad[0]], tail)[1..] == tail[1..];
      assert StripAll(Prepend([pad[0]], tail)) == StripAll(tail);
    }
  }

  /** A balanced piece without unquoted "- ", then a delimiter. */
  lemma SplitHead(piece: string, rest: string)
    requires Balanced(piece) && CutFree(piece, false)
    ensures SplitFields(piece + "- " + rest) == [Strip(piece)] + SplitFields(rest)
  {
    var tail := Segments(rest, false);
    SegmentsRejoin(rest, false);
    SegmentsProperlyCut(rest, false);
    var all := [piece] + tail;
    assert all[1..] == tail;
    SegmentsOfJoin(all, false);
    assert Join(all, "- ") == piece + "- " + rest;
    assert StripAll(all) == [Strip(piece)] + StripAll(tail);
  }

  // ---- which fields survive, by their characters ---------------------------

  /** No dash directly before a space. */
  predicate NoCutIn(s: string) {
    forall k :: 0 <= k < |s| - 1 ==> s[k] != '-' || s[k + 1] != ' '
  }

  lemma {:induction false} CutFreeWithoutQuotes(s: string)
    requires '"' !in s
    ensures CutFree(s, false) <==> NoCutIn(s)
  {
    if s != "" {
      assert s[0] in s;
      CutFreeWithoutQuotes(s[1..]);
      assert NoCutIn(s) ==> NoCutIn(s[1..]) by {
        assert forall k :: 0 <= k < |s[1..]| ==> s[1..][k] == s[k + 1];
      }
      if NoCutIn(s[1..]) && !CutHere(s, false) {
        forall k | 0 <= k < |s| - 1
          ensures s[k] != '-' || s[k + 1] != ' '
        {
          if k > 0 {
            assert s[1..][k - 1] == s[k] && s[1..][k] == s[k + 1];
          }
        }
      }
    }
  }

  lemma PaddedCutFree(f: string)
    requires '"' !in f
    ensures CutFree(f + " ", false) <==> NoCutIn(f) && !EndsWith(f, '-')
  {
    CutFreeWithoutQuotes(f + " ");
    if NoCutIn(f + " ") {
      forall k | 0 <= k < |f| - 1
        ensures f[k] != '-' || f[k + 1] != ' '
      {
        assert (f + " ")[k] == f[k] && (f + " ")[k + 1] == f[k + 1];
      }
      assert f != "" ==> (f + " ")[|f| - 1] == f[|f| - 1] && (f + " ")[|f|] == ' ';
    }
  }

  /** No field holds a dash before a space, and none but the last ends in a dash. */
  predicate NoCutInFields(fields: seq<string>) {
    forall i :: 0 <= i < |fields| ==> NoCutIn(fields[i]) && (i < |fields| - 1 ==> !EndsWith(fields[i], '-'))
  }

  lemma {:induction false} SafeWithoutQuotes(fields: seq<string>)
    requires |fields| > 0 && forall i :: 0 <= i < |fields| ==> '"' !in fields[i]
    ensures SplitSafe(fields) <==> NoCutInFields(fields)
  {
    CutFreeWithoutQuotes(fields[0]);
    if |fields| > 1 {
      NoQuotes(fields[0]);
      PaddedCutFree(fields[0]);
      SafeWithoutQuotes(fields[1..]);
      assert forall i :: 0 <= i < |fields[1..]| ==> fields[1..][i] == fields[i + 1];
      if SplitSafe(fields) {
        forall i | 0 <= i < |fields|
          ensures NoCutIn(fields[i]) && (i < |fields| - 1 ==> !EndsWith(fields[i], '-'))
        {
          if i > 0 {
            assert fields[1..][i - 1] == fields[i];
          }
        }
      }
    }
  }

  /** Trimmed fields without quotes come back from the joined text exactly when none holds or leaves a cut. */
  lemma PlainFieldsExactly(fields: seq<string>)
    requires |fields| > 0 && AllTrimmed(fields) && forall i :: 0 <= i < |fields| ==> '"' !in fields[i]
    ensures SplitFields(Join(fields, " - ")) == fields <==> NoCutInFields(fields)
  {
    SafeWithoutQuotes(fields);
    SplitInvertsJoin(fields);
  }

  lemma {:induction false} InsideQuotesCutFree(t: string)
    requires '"' !in t
    ensures CutFree(t + "\"" + " ", true) && Quotes(t) == 0
  {
    if t == "" {
      assert (t + "\"" + " ")[1..] == " ";
      assert CutFree(" ", false);
    } else {
      assert t[0] in t;
      assert (t + "\"" + " ")[1..] == t[1..] + "\"" + " ";
      InsideQuotesCutFree(t[1..]);
    }
  }

  function InQuotes(t: string): string {
    "\"" + t + "\""
  }

  lemma QuotedFieldSafe(t: string)
    requires '"' !in t
    ensures Balanced(InQuotes(t)) && CutFree(InQuotes(t) + " ", false) && CutFree(InQuotes(t), false)
    ensures Trimmed(InQuotes(t))
  {
    InsideQuotesCutFree(t);
    assert (InQuotes(t) + " ")[1..] == t + "\"" + " ";
    QuotesAppend("\"" + t, "\"");
    QuotesAppend("\"", t);
    assert Quotes("\"") == 1;
    CutFreeFront(InQuotes(t), " ", false);
  }

  lemma {:induction false} CutFreeFront(s: string, t: string, inQuote: bool)
    requires CutFree(s + t, inQuote)
    ensures CutFree(s, inQuote)
  {
    if s != "" {
      assert (s + t)[1..] == s[1..] + t;
      CutFreeFront(s[1..], t, inQuote != (s[0] == '"'));
    }
  }

  lemma {:induction false} QuotedFieldsSafe(texts: seq<string>)
    requires |texts| > 0 && forall i :: 0 <= i < |texts| ==> '"' !in texts[i]
    ensures var fields := seq(|texts|, i requires 0 <= i < |texts| => InQuotes(texts[i]));
      SplitSafe(fields) && AllTrimmed(fields)
  {
    var fields := seq(|texts|, i requires 0 <= i < |texts| => InQuotes(texts[i]));
    QuotedFieldSafe(texts[0]);
    if |texts| > 1 {
      QuotedFieldsSafe(texts[1..]);
      var rest := seq(|texts[1..]|, i requires 0 <= i < |texts[1..]| => InQuotes(texts[1..][i]));
      assert fields[1..] == rest;
      assert forall i :: 0 < i < |fields| ==> fields[i] == rest[i - 1];
    }
  }

  /** Quoted fields come back whatever dashes and spaces they hold. */
  lemma QuotedFieldsSurvive(texts: seq<string>)
    requires |texts| > 0 && forall i :: 0 <= i < |texts| ==> '"' !in texts[i]
    ensures var fields := seq(|texts|, i requires 0 <= i < |texts| => InQuotes(texts[i]));
      SplitFields(Join(fields, " - ")) == fields
  {
    QuotedFieldsSafe(texts);
    SplitInvertsJoin(seq(|texts|, i requires 0 <= i < |texts| => InQuotes(texts[i])));
  }
}
