/**
 * Timestamp formatting (`format_timestamp`, identical in the YouTube and the
 * video extractor) and parsing (`parse_timestamp_seconds` of the chunker).
 * Seconds are whole numbers here: the extractors' float seconds are floored
 * by both the source's `int(...)` conversions.
 */
module Timestamps {
  import opened Text
  import opened Wrappers

  /** `HH:MM:SS` from one hour on, `MM:SS` below, each field zero-padded to two digits. */
  function FormatTimestamp(seconds: nat): (r: string)
    ensures seconds < 3600 ==> |r| == 5 && r[2] == ':'
    ensures 3600 <= seconds < 360000 ==> |r| == 8 && r[2] == ':' && r[5] == ':'
  {
    var hours := seconds / 3600;
    var minutes := (seconds % 3600) / 60;
    var secs := seconds % 60;
    Fields(seconds);
    if hours > 0 then
      Pad2Shape(hours);
      Pad2(hours) + ":" + Pad2(minutes) + ":" + Pad2(secs)
    else
      Pad2(minutes) + ":" + Pad2(secs)
  }

  /** The three fields of a time in seconds. */
  lemma Fields(seconds: nat)
    ensures seconds == (seconds / 3600) * 3600 + ((seconds % 3600) / 60) * 60 + seconds % 60
    ensures (seconds % 3600) / 60 < 60 && seconds % 60 < 60
    ensures seconds < 3600 <==> seconds / 3600 == 0
    ensures seconds < 360000 ==> seconds / 3600 < 100
    ensures |Pad2((seconds % 3600) / 60)| == 2 && |Pad2(seconds % 60)| == 2
  {
    var m := seconds % 3600;
    assert m == seconds - (seconds / 3600) * 3600;
    assert m == (m / 60) * 60 + m % 60;
    assert m % 60 == seconds % 60;
    Pad2Shape(m / 60);
    Pad2Shape(seconds % 60);
  }

  lemma Pad2Shape(n: nat)
    ensures n < 100 ==> |Pad2(n)| == 2 && AllDigits(Pad2(n)) && DigitsValue(Pad2(n)) == n
  {
    if n < 100 {
      NatToStringValue(n);
      if n < 10 {
        var p := Pad2(n);
        assert p == "0" + NatToString(n);
        assert p[..1] == "0" && p[..1][..0] == [];
        assert DigitsValue(p[..1]) == 0;
      }
      else {
        assert |NatToString(n / 10)| == 1;
      }
    }
  }

  /** How many of the first two characters of `s` are decimal digits when
      the first one is (`\d{1,2}` taken greedily). */
  function LeadDigits2(s: string): (d: nat)
    ensures d <= 2 && d <= |s| && AllDigits(s[..d])
    ensures d < 2 && d < |s| ==> !IsDigit(s[d])
  {
    if |s| > 0 && IsDigit(s[0]) then (if |s| > 1 && IsDigit(s[1]) then 2 else 1) else 0
  }

  /** Drops one leading '[' (the optional `\[?`). */
  function DropBracket(s: string): string {
    if |s| > 0 && s[0] == '[' then s[1..] else s
  }

  /** Whether `t` starts with `\d{1,2}:\d{2}`; the end index of that match. */
  predicate LeadMinSec(t: string) {
    var d := LeadDigits2(t);
    d >= 1 && d + 3 <= |t| && t[d] == ':' && IsDigit(t[d + 1]) && IsDigit(t[d + 2])
  }

  /** Given `LeadMinSec(t)`, whether a further `:\d{2}` follows. */
  predicate LeadHourForm(t: string)
    requires LeadMinSec(t)
  {
    var p := LeadDigits2(t) + 3;
    p + 3 <= |t| && t[p] == ':' && IsDigit(t[p + 1]) && IsDigit(t[p + 2])
  }

  /** `parse_timestamp_seconds`: first `\[?(\d{1,2}):(\d{2}):(\d{2})`, then
      `\[?(\d{1,2}):(\d{2})`, each anchored at the start; `None` otherwise.
      The fields are not range-checked: "1:99:99" counts 99 minutes. */
  function ParseTimestampSeconds(ts: string): (r: Option<nat>)
    ensures r.Some? <==> LeadMinSec(DropBracket(ts))
  {
    var t := DropBracket(ts);
    if !LeadMinSec(t) then None
    else
      var d := LeadDigits2(t);
      var a := DigitsValue(t[..d]);
      var b := DigitsValue(t[d + 1..d + 3]);
      if LeadHourForm(t) then Some(a * 3600 + b * 60 + DigitsValue(t[d + 4..d + 6]))
      else Some(a * 60 + b)
  }

  /** Parsing a formatted timestamp gives back the seconds, up to 99 hours. */
  lemma ParseFormatRoundTrip(seconds: nat)
    requires seconds < 360000
    ensures ParseTimestampSeconds(FormatTimestamp(seconds)) == Some(seconds)
  {
    var hours := seconds / 3600;
    var minutes := (seconds % 3600) / 60;
    var secs := seconds % 60;
    Fields(seconds);
    Pad2Shape(hours);
    Pad2Shape(minutes);
    Pad2Shape(secs);
    if hours > 0 {
      ParseLong(Pad2(hours), Pad2(minutes), Pad2(secs));
    } else {
      ParseShort(Pad2(minutes), Pad2(secs));
    }
  }

  /** `HH:MM:SS` with two digits in each field parses as its three fields. */
  lemma ParseLong(h: string, m: string, s: string)
    requires |h| == 2 && |m| == 2 && |s| == 2 && AllDigits(h) && AllDigits(m) && AllDigits(s)
    ensures ParseTimestampSeconds(h + ":" + m + ":" + s) == Some(DigitsValue(h) * 3600 + DigitsValue(m) * 60 + DigitsValue(s))
  {
    var t := h + ":" + m + ":" + s;
    LongShape(h, m, s, t);
    ParsedLong(t, h, m, s);
  }

  /** The characters and fields of `HH:MM:SS`. */
  lemma LongShape(h: string, m: string, s: string, t: string)
    requires |h| == 2 && |m| == 2 && |s| == 2 && AllDigits(h) && AllDigits(m) && AllDigits(s)
    requires t == h + ":" + m + ":" + s
    ensures |t| == 8 && t[..2] == h && t[3..5] == m && t[6..8] == s
    ensures IsDigit(t[0]) && IsDigit(t[1]) && t[2] == ':' && IsDigit(t[3]) && IsDigit(t[4])
    ensures t[5] == ':' && IsDigit(t[6]) && IsDigit(t[7])
  {
    assert t[..2] == h && t[3..5] == m && t[6..8] == s;
  }

  /** A text that starts like `HH:MM:SS` parses as its three fields. */
  lemma ParsedLong(t: string, h: string, m: string, s: string)
    requires |t| >= 8 && IsDigit(t[0]) && IsDigit(t[1]) && t[2] == ':' && IsDigit(t[3]) && IsDigit(t[4])
    requires t[5] == ':' && IsDigit(t[6]) && IsDigit(t[7])
    requires t[..2] == h && t[3..5] == m && t[6..8] == s
    ensures ParseTimestampSeconds(t) == Some(DigitsValue(h) * 3600 + DigitsValue(m) * 60 + DigitsValue(s))
  {
    LongMatch(t);
  }

  /** A text that starts like `HH:MM:SS` matches the three-field pattern with two hour digits. */
  lemma LongMatch(t: string)
    requires |t| >= 8 && IsDigit(t[0]) && IsDigit(t[1]) && t[2] == ':' && IsDigit(t[3]) && IsDigit(t[4])
    requires t[5] == ':' && IsDigit(t[6]) && IsDigit(t[7])
    ensures DropBracket(t) == t && LeadDigits2(t) == 2 && LeadMinSec(t) && LeadHourForm(t)
  {
  }

  /** `MM:SS` with two digits in each field parses as its two fields. */
  lemma ParseShort(m: string, s: string)
    requires |m| == 2 && |s| == 2 && AllDigits(m) && AllDigits(s)
    ensures ParseTimestampSeconds(m + ":" + s) == Some(DigitsValue(m) * 60 + DigitsValue(s))
  {
    var t := m + ":" + s;
    assert |t| == 5;
    assert t[..2] == m && t[2] == ':' && t[3..5] == s;
    assert IsDigit(t[0]) && IsDigit(t[1]) && IsDigit(t[3]) && IsDigit(t[4]);
    assert DropBracket(t) == t;
    assert LeadDigits2(t) == 2;
    assert LeadMinSec(t) && !LeadHourForm(t);
  }
}
