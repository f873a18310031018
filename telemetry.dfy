/**
 * Decoding one inbound message: `Mpu_Values:` messages carry pitch, roll
 * and temperature as `P: `, `R: ` and `T: ` fields; every other message is
 * ignored. A field runs from just after its key up to the next comma (or the
 * end of the message), is trimmed, and is parsed as a number; a missing key
 * or a failed parse gives 0.
 */
module Telemetry {
  import opened Wrappers
  import opened Text

  /**
   * Culture-invariant number parsing (`float.TryParse` with
   * `NumberStyles.Float`), taken as a parameter of the model: `None` where
   * the runtime reports failure.
   */
  type NumberParser = string -> Option<real>

  const MpuPrefix := "Mpu_Values:"
  const PitchKey := "P: "
  const RollKey := "R: "
  const TemperatureKey := "T: "
  const FieldEnd := ","

  /** The client's live data: the `pitch`, `roll` and `temperature` fields. */
  datatype Sample = Sample(pitch: real, roll: real, temperature: real)

  function ParseOrZero(parse: NumberParser, text: string): real {
    parse(text).GetOr(0.0)
  }

  /**
   * The text of the field that follows the first occurrence of
   * `key`: up to the next `endChar` at or after the field's start, or to the
   * end of `source` when `endChar` is empty or does not occur there. `None`
   * when `key` does not occur.
   */
  function FieldText(source: string, key: string, endChar: string): (r: Option<string>)
    ensures r.None? <==> !Contains(source, key)
  {
    var startIndex := IndexOf(source, key);
    if startIndex == -1 then None
    else
      var start := startIndex + |key|;
      var endIndex := if endChar == "" then |source| else IndexOfFrom(source, endChar, start);
      var stop := if endIndex == -1 then |source| else endIndex;
      Some(source[start..stop])
  }

  /** The client's `ExtractValue`: the field, trimmed, parsed as a number, or 0. */
  function ExtractValue(source: string, key: string, endChar: string, parse: NumberParser): (r: real)
    ensures !Contains(source, key) ==> r == 0.0
  {
    match FieldText(source, key, endChar)
    case None => 0.0
    case Some(text) => ParseOrZero(parse, Trim(text))
  }

  /**
   * With the key first at `i` and the end marker first at `j` at or after
   * the field's start, the field is the text between them.
   */
  lemma FieldTextBetween(source: string, key: string, endChar: string, i: int, j: int)
    requires FirstAt(source, key, 0, i)
    requires endChar != "" && FirstAt(source, endChar, i + |key|, j)
    ensures FieldText(source, key, endChar) == Some(source[i + |key|..j])
  {
    IndexOfFromIsFirst(source, key, 0, i);
    IndexOfFromIsFirst(source, endChar, i + |key|, j);
  }

  /**
   * With the key first at `i` and no end marker after the field's start
   * (or none asked for), the field runs to the end of the text.
   */
  lemma FieldTextToEnd(source: string, key: string, endChar: string, i: int)
    requires FirstAt(source, key, 0, i)
    requires endChar == "" || forall k :: i + |key| <= k ==> !OccursAt(source, endChar, k)
    ensures FieldText(source, key, endChar) == Some(source[i + |key|..])
  {
    IndexOfFromIsFirst(source, key, 0, i);
    if endChar != "" {
      var e := IndexOfFrom(source, endChar, i + |key|);
      if e != -1 {
        assert false;
      }
    }
    assert source[i + |key|..|source|] == source[i + |key|..];
  }

  /**
   * The client's `ParseMessage`: an `Mpu_Values:` message replaces all
   * three readings; any other message leaves the sample as it was.
   */
  function ApplyMessage(s: Sample, msg: string, parse: NumberParser): (r: Sample)
    ensures !StartsWith(msg, MpuPrefix) ==> r == s
  {
    if StartsWith(msg, MpuPrefix) then
      Sample(ExtractValue(msg, PitchKey, FieldEnd, parse),
             ExtractValue(msg, RollKey, FieldEnd, parse),
             ExtractValue(msg, TemperatureKey, "", parse))
    else s
  }

  /** The sample after handing `msgs` to `ParseMessage` in order. */
  function ApplyAll(s: Sample, msgs: seq<string>, parse: NumberParser): Sample
    decreases |msgs|
  {
    if msgs == [] then s
    else ApplyMessage(ApplyAll(s, msgs[..|msgs| - 1], parse), msgs[|msgs| - 1], parse)
  }

  /** Handing over `a` and then `b` is handing over `a + b`. */
  lemma {:induction false} ApplyAllAppend(s: Sample, a: seq<string>, b: seq<string>, parse: NumberParser)
    ensures ApplyAll(s, a + b, parse) == ApplyAll(ApplyAll(s, a, parse), b, parse)
    decreases |b|
  {
    if b == [] {
      assert a + b == a;
    } else {
      assert (a + b)[..|a + b| - 1] == a + b[..|b| - 1];
      ApplyAllAppend(s, a, b[..|b| - 1], parse);
    }
  }

  /** Messages that are not telemetry leave the sample untouched. */
  lemma {:induction false} ApplyAllIgnoresOthers(s: Sample, msgs: seq<string>, parse: NumberParser)
    requires forall k :: 0 <= k < |msgs| ==> !StartsWith(msgs[k], MpuPrefix)
    ensures ApplyAll(s, msgs, parse) == s
    decreases |msgs|
  {
    if msgs != [] {
      ApplyAllIgnoresOthers(s, msgs[..|msgs| - 1], parse);
    }
  }

  /** The last telemetry message wins: it overwrites all three readings. */
  lemma LastTelemetryWins(s: Sample, msgs: seq<string>, last: string, parse: NumberParser)
    requires StartsWith(last, MpuPrefix)
    ensures ApplyAll(s, msgs + [last], parse) == ApplyMessage(s, last, parse)
  {
    assert (msgs + [last])[..|msgs + [last]| - 1] == msgs;
  }

  // ---------------------------------------------------------------------
  // The telemetry message in the layout the client expects, and its decoding

  /**
   * A character that may appear in a field's number text: not white space,
   * and none of the characters the message grammar gives a meaning to
   * (separators, the terminator, and the first letters of the keys).
   */
  predicate IsFieldChar(c: char) {
    !IsWhiteSpace(c) && c != ',' && c != ':' && c != '>' && c != 'P' && c != 'R' && c != 'T'
  }

  predicate IsWireField(v: string) {
    |v| > 0 && forall k :: 0 <= k < |v| ==> IsFieldChar(v[k])
  }

  /** The layout the client expects: `Mpu_Values: P: <p>, R: <r>, T: <t>` */
  function MpuMessage(p: string, r: string, t: string): string {
    MpuPrefix + " " + PitchKey + p + FieldEnd + " " + RollKey + r + FieldEnd + " " + TemperatureKey + t
  }

  lemma WireFieldLacks(v: string)
    requires IsWireField(v)
    ensures Lacks(v, ',') && Lacks(v, 'P') && Lacks(v, 'R') && Lacks(v, 'T')
  {
  }

  /** A pattern whose first character does not occur in `s[from..i]` is first at `i`. */
  lemma FirstAtByFirstChar(s: string, pat: string, from: nat, i: int)
    requires |pat| > 0 && from <= i && OccursAt(s, pat, i)
    requires forall k :: from <= k < i ==> s[k] != pat[0]
    ensures FirstAt(s, pat, from, i)
  {
    forall k | from <= k < i ensures !OccursAt(s, pat, k) {
      if k + |pat| <= |s| {
        assert s[k..k + |pat|][0] == s[k];
      }
    }
  }

  /** The key first occurs just after `pre` when `pre` lacks its first character. */
  lemma KeyAfter(pre: string, key: string, post: string)
    requires |key| > 0 && Lacks(pre, key[0])
    ensures FirstAt(pre + key + post, key, 0, |pre|)
  {
    var s := pre + key + post;
    assert s[|pre|..|pre| + |key|] == key;
    forall k | 0 <= k < |pre| ensures s[k] != key[0] {
      assert s[k] == pre[k];
    }
    FirstAtByFirstChar(s, key, 0, |pre|);
  }

  /** A field followed by a comma, its text free of commas, is read up to that comma. */
  lemma FieldBeforeComma(pre: string, key: string, v: string, post: string)
    requires |key| > 0 && Lacks(pre, key[0]) && Lacks(v, ',')
    requires |post| > 0 && post[0] == ','
    ensures FieldText(pre + key + v + post, key, FieldEnd) == Some(v)
  {
    var s := pre + key + v + post;
    var at := |pre| + |key|;
    KeyAfter(pre, key, v + post);
    assert pre + key + (v + post) == s;
    assert s[at + |v|..at + |v| + 1] == FieldEnd;
    forall k | at <= k < at + |v| ensures s[k] != FieldEnd[0] {
      assert s[k] == v[k - at];
    }
    FirstAtByFirstChar(s, FieldEnd, at, at + |v|);
    FieldTextBetween(s, key, FieldEnd, |pre|, at + |v|);
    assert s[at..at + |v|] == v;
  }

  /** The last field, read with no end marker, runs to the end of the message. */
  lemma FieldAtEnd(pre: string, key: string, v: string)
    requires |key| > 0 && Lacks(pre, key[0])
    ensures FieldText(pre + key + v, key, "") == Some(v)
  {
    var s := pre + key + v;
    KeyAfter(pre, key, v);
    FieldTextToEnd(s, key, "", |pre|);
    assert s[|pre| + |key|..] == v;
  }

  lemma PitchField(p: string, r: string, t: string)
    requires IsWireField(p)
    ensures FieldText(MpuMessage(p, r, t), PitchKey, FieldEnd) == Some(p)
  {
    WireFieldLacks(p);
    var pre := "Mpu_Values: ";
    var post := ", R: " + r + ", T: " + t;
    assert MpuMessage(p, r, t) == pre + PitchKey + p + post;
    assert Lacks(pre, 'P');
    FieldBeforeComma(pre, PitchKey, p, post);
  }

  lemma RollField(p: string, r: string, t: string)
    requires IsWireField(p) && IsWireField(r)
    ensures FieldText(MpuMessage(p, r, t), RollKey, FieldEnd) == Some(r)
  {
    WireFieldLacks(p);
    WireFieldLacks(r);
    var pre := "Mpu_Values: P: " + p + ", ";
    var post := ", T: " + t;
    assert MpuMessage(p, r, t) == pre + RollKey + r + post;
    assert Lacks("Mpu_Values: P: ", 'R') && Lacks(", ", 'R');
    LacksAppend("Mpu_Values: P: ", p, 'R');
    LacksAppend("Mpu_Values: P: " + p, ", ", 'R');
    FieldBeforeComma(pre, RollKey, r, post);
  }

  lemma TemperatureField(p: string, r: string, t: string)
    requires IsWireField(p) && IsWireField(r)
    ensures FieldText(MpuMessage(p, r, t), TemperatureKey, "") == Some(t)
  {
    WireFieldLacks(p);
    WireFieldLacks(r);
    var pre := "Mpu_Values: P: " + p + ", R: " + r + ", ";
    assert MpuMessage(p, r, t) == pre + TemperatureKey + t;
    assert Lacks("Mpu_Values: P: ", 'T') && Lacks(", R: ", 'T') && Lacks(", ", 'T');
    LacksAppend("Mpu_Values: P: ", p, 'T');
    LacksAppend("Mpu_Values: P: " + p, ", R: ", 'T');
    LacksAppend("Mpu_Values: P: " + p + ", R: ", r, 'T');
    LacksAppend("Mpu_Values: P: " + p + ", R: " + r, ", ", 'T');
    FieldAtEnd(pre, TemperatureKey, t);
  }

  /**
   * Decoding a message in that layout gives back the parsed text of each
   * field: pitch, roll and temperature are each read from their own field.
   */
  lemma MpuMessageDecodes(s: Sample, p: string, r: string, t: string, parse: NumberParser)
    requires IsWireField(p) && IsWireField(r) && IsWireField(t)
    ensures ApplyMessage(s, MpuMessage(p, r, t), parse)
         == Sample(ParseOrZero(parse, p), ParseOrZero(parse, r), ParseOrZero(parse, t))
  {
    var msg := MpuMessage(p, r, t);
    assert StartsWith(msg, MpuPrefix) by {
      assert msg[..|MpuPrefix|] == MpuPrefix;
    }
    PitchField(p, r, t);
    RollField(p, r, t);
    TemperatureField(p, r, t);
    TrimNoWhiteSpace(p);
    TrimNoWhiteSpace(r);
    TrimNoWhiteSpace(t);
  }

  /**
   * A malformed field costs only that field: with the pitch text unreadable
   * the pitch is 0 while roll and temperature are still decoded.
   */
  lemma MalformedFieldDefaultsToZero(s: Sample, p: string, r: string, t: string, parse: NumberParser)
    requires IsWireField(p) && IsWireField(r) && IsWireField(t)
    requires parse(p).None?
    ensures ApplyMessage(s, MpuMessage(p, r, t), parse)
         == Sample(0.0, ParseOrZero(parse, r), ParseOrZero(parse, t))
  {
    MpuMessageDecodes(s, p, r, t, parse);
  }
}
