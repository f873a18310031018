/**
 * The commands the client sends to the board: three fixed lighting effects
 * and a colour for one side (or all sides) of the board, each written as one
 * `>>`-terminated frame.
 */
module Commands {
  import opened Wrappers
  import opened Text
  import opened Framing
  import opened Telemetry

  /** The client's `BoardSide` enumeration. */
  datatype BoardSide = All | Top | Right | Bottom | Left

  /** The integer value of each `BoardSide` member, as `(int)side` gives it. */
  function SideCode(side: BoardSide): (code: int)
    ensures 0 <= code <= 4
  {
    match side
    case All => 0
    case Top => 4
    case Right => 3
    case Bottom => 2
    case Left => 1
  }

  /** The member with a given value, if any. */
  function SideOfCode(code: int): (r: Option<BoardSide>)
    ensures r.Some? <==> 0 <= code <= 4
  {
    if code == 0 then Some(All)
    else if code == 1 then Some(Left)
    else if code == 2 then Some(Bottom)
    else if code == 3 then Some(Right)
    else if code == 4 then Some(Top)
    else None
  }

  /** Every side is named by its own code: the codes are pairwise distinct. */
  lemma SideCodeRoundTrip(side: BoardSide)
    ensures SideOfCode(SideCode(side)) == Some(side)
  {
  }

  lemma SideOfCodeRoundTrip(code: int)
    requires SideOfCode(code).Some?
    ensures SideCode(SideOfCode(code).value) == code
  {
  }

  /** What `SendOff`, `SendRainbow`, `SendIdle` and `SendColor` ask the board to do. */
  datatype Command = Off | Rainbow | Idle | Color(r: int, g: int, b: int, side: BoardSide)

  /** The frame body of a command, without its terminator. */
  function Body(cmd: Command): string {
    match cmd
    case Off => "Off"
    case Rainbow => "Rainbow"
    case Idle => "Idle"
    case Color(r, g, b, side) =>
      ColorBody(IntToString(r), IntToString(g), IntToString(b), IntToString(SideCode(side)))
  }

  /** `R: <r>, G: <g>, B: <b>, Side: <code>` */
  function ColorBody(r: string, g: string, b: string, code: string): string {
    "R: " + r + ", G: " + g + ", B: " + b + ", Side: " + code
  }

  /** The text handed to `SendString`: the body and the terminator. */
  function Encode(cmd: Command): string {
    Body(cmd) + Terminator
  }

  /** The three fixed effects are written as these exact frames. */
  lemma FixedFrames()
    ensures Encode(Off) == "Off>>" && Encode(Rainbow) == "Rainbow>>" && Encode(Idle) == "Idle>>"
  {
  }

  // ---------------------------------------------------------------------
  // A reference decoder, the partner of `Encode`

  /** The integer read from a field: its trimmed text as `ParseInt` reads it. */
  function FieldInt(body: string, key: string, endChar: string): Option<int> {
    match FieldText(body, key, endChar)
    case None => None
    case Some(text) => ParseInt(Trim(text))
  }

  function DecodeColor(body: string): Option<Command> {
    match (FieldInt(body, "R: ", FieldEnd), FieldInt(body, "G: ", FieldEnd),
           FieldInt(body, "B: ", FieldEnd), FieldInt(body, "Side: ", ""))
    case (Some(r), Some(g), Some(b), Some(code)) =>
      (match SideOfCode(code)
       case Some(side) => Some(Color(r, g, b, side))
       case None => None)
    case _ => None
  }

  function DecodeBody(body: string): Option<Command> {
    if body == "Off" then Some(Off)
    else if body == "Rainbow" then Some(Rainbow)
    else if body == "Idle" then Some(Idle)
    else if StartsWith(body, "R: ") then DecodeColor(body)
    else None
  }

  /** Reads a frame back into the command it encodes; `None` for anything else. */
  function Decode(frame: string): Option<Command> {
    if |frame| < 2 || frame[|frame| - 2..] != Terminator then None
    else DecodeBody(frame[..|frame| - 2])
  }

  /** The text `int.ToString()` produces: digits, after an optional minus sign. */
  predicate IsNumeral(s: string) {
    forall k :: 0 <= k < |s| ==> ('0' <= s[k] <= '9') || (k == 0 && s[k] == '-')
  }

  lemma NumeralLacks(s: string, c: char)
    requires IsNumeral(s) && c != '-' && !('0' <= c <= '9')
    ensures Lacks(s, c)
  {
  }

  lemma NumeralTrim(n: int)
    ensures Trim(IntToString(n)) == IntToString(n)
  {
    var s := IntToString(n);
    IntToStringChars(n);
    assert !IsWhiteSpace(s[0]) && !IsWhiteSpace(s[|s| - 1]);
    TrimNoWhiteSpace(s);
  }

  /** A field holding a rendered integer reads back as that integer. */
  lemma IntFieldReads(body: string, key: string, endChar: string, n: int)
    requires FieldText(body, key, endChar) == Some(IntToString(n))
    ensures FieldInt(body, key, endChar) == Some(n)
  {
    NumeralTrim(n);
    IntToStringRoundTrip(n);
  }

  lemma ColorRedField(R: string, G: string, B: string, S: string)
    requires IsNumeral(R)
    ensures FieldText(ColorBody(R, G, B, S), "R: ", FieldEnd) == Some(R)
  {
    var post := ", G: " + G + ", B: " + B + ", Side: " + S;
    assert ColorBody(R, G, B, S) == "" + "R: " + R + post;
    NumeralLacks(R, ',');
    FieldBeforeComma("", "R: ", R, post);
  }

  lemma ColorGreenField(R: string, G: string, B: string, S: string)
    requires IsNumeral(R) && IsNumeral(G)
    ensures FieldText(ColorBody(R, G, B, S), "G: ", FieldEnd) == Some(G)
  {
    var pre := "R: " + R + ", ";
    var post := ", B: " + B + ", Side: " + S;
    assert ColorBody(R, G, B, S) == pre + "G: " + G + post;
    NumeralLacks(R, 'G');
    NumeralLacks(G, ',');
    LacksAppend("R: ", R, 'G');
    LacksAppend("R: " + R, ", ", 'G');
    FieldBeforeComma(pre, "G: ", G, post);
  }

  lemma ColorBlueField(R: string, G: string, B: string, S: string)
    requires IsNumeral(R) && IsNumeral(G) && IsNumeral(B)
    ensures FieldText(ColorBody(R, G, B, S), "B: ", FieldEnd) == Some(B)
  {
    var pre := "R: " + R + ", G: " + G + ", ";
    var post := ", Side: " + S;
    assert ColorBody(R, G, B, S) == pre + "B: " + B + post;
    NumeralLacks(R, 'B');
    NumeralLacks(G, 'B');
    NumeralLacks(B, ',');
    LacksAppend("R: ", R, 'B');
    LacksAppend("R: " + R, ", G: ", 'B');
    LacksAppend("R: " + R + ", G: ", G, 'B');
    LacksAppend("R: " + R + ", G: " + G, ", ", 'B');
    FieldBeforeComma(pre, "B: ", B, post);
  }

  lemma ColorSideField(R: string, G: string, B: string, S: string)
    requires IsNumeral(R) && IsNumeral(G) && IsNumeral(B)
    ensures FieldText(ColorBody(R, G, B, S), "Side: ", "") == Some(S)
  {
    var pre := "R: " + R + ", G: " + G + ", B: " + B + ", ";
    assert ColorBody(R, G, B, S) == pre + "Side: " + S;
    NumeralLacks(R, 'S');
    NumeralLacks(G, 'S');
    NumeralLacks(B, 'S');
    LacksAppend("R: ", R, 'S');
    LacksAppend("R: " + R, ", G: ", 'S');
    LacksAppend("R: " + R + ", G: ", G, 'S');
    LacksAppend("R: " + R + ", G: " + G, ", B: ", 'S');
    LacksAppend("R: " + R + ", G: " + G + ", B: ", B, 'S');
    LacksAppend("R: " + R + ", G: " + G + ", B: " + B, ", ", 'S');
    FieldAtEnd(pre, "Side: ", S);
  }

  lemma NumeralOf(n: int)
    ensures IsNumeral(IntToString(n))
  {
    IntToStringChars(n);
  }

  /** Each of the four fields of a colour frame reads back as the integer written. */
  lemma ColorFields(r: int, g: int, b: int, side: BoardSide)
    ensures FieldInt(Body(Color(r, g, b, side)), "R: ", FieldEnd) == Some(r)
    ensures FieldInt(Body(Color(r, g, b, side)), "G: ", FieldEnd) == Some(g)
    ensures FieldInt(Body(Color(r, g, b, side)), "B: ", FieldEnd) == Some(b)
    ensures FieldInt(Body(Color(r, g, b, side)), "Side: ", "") == Some(SideCode(side))
  {
    var R, G, B, S := IntToString(r), IntToString(g), IntToString(b), IntToString(SideCode(side));
    var body := Body(Color(r, g, b, side));
    NumeralOf(r);
    NumeralOf(g);
    NumeralOf(b);
    ColorRedField(R, G, B, S);
    ColorGreenField(R, G, B, S);
    ColorBlueField(R, G, B, S);
    ColorSideField(R, G, B, S);
    IntFieldReads(body, "R: ", FieldEnd, r);
    IntFieldReads(body, "G: ", FieldEnd, g);
    IntFieldReads(body, "B: ", FieldEnd, b);
    IntFieldReads(body, "Side: ", "", SideCode(side));
  }

  lemma DecodeFrame(body: string)
    ensures Decode(body + Terminator) == DecodeBody(body)
  {
    var frame := body + Terminator;
    assert frame[..|frame| - 2] == body;
    assert frame[|frame| - 2..] == Terminator;
  }

  /** A colour body is told apart from the fixed effects by its `R: ` start. */
  lemma ColorBodyStart(R: string, G: string, B: string, S: string)
    ensures StartsWith(ColorBody(R, G, B, S), "R: ")
    ensures ColorBody(R, G, B, S) != "Off" && ColorBody(R, G, B, S) != "Rainbow"
         && ColorBody(R, G, B, S) != "Idle"
  {
    var body := ColorBody(R, G, B, S);
    assert body == "R: " + (R + ", G: " + G + ", B: " + B + ", Side: " + S);
    assert body[..3] == "R: ";
    assert body[1] == ':';
  }

  lemma ColorDecodes(r: int, g: int, b: int, side: BoardSide)
    ensures DecodeColor(Body(Color(r, g, b, side))) == Some(Color(r, g, b, side))
  {
    ColorFields(r, g, b, side);
    SideCodeRoundTrip(side);
  }

  lemma DecodeColorBody(r: int, g: int, b: int, side: BoardSide)
    ensures DecodeBody(Body(Color(r, g, b, side))) == Some(Color(r, g, b, side))
  {
    ColorBodyStart(IntToString(r), IntToString(g), IntToString(b), IntToString(SideCode(side)));
    ColorDecodes(r, g, b, side);
  }

  /** Every command is read back from its frame: the encoding loses nothing. */
  lemma DecodeEncode(cmd: Command)
    ensures Decode(Encode(cmd)) == Some(cmd)
  {
    DecodeFrame(Body(cmd));
    if cmd.Color? {
      DecodeColorBody(cmd.r, cmd.g, cmd.b, cmd.side);
    }
  }

  /** Distinct commands are written as distinct frames. */
  lemma EncodeInjective(a: Command, b: Command)
    ensures Encode(a) == Encode(b) ==> a == b
  {
    DecodeEncode(a);
    DecodeEncode(b);
  }

  /** A body holds no `>`, so it cannot end its own frame early. */
  lemma BodyLacksAngle(cmd: Command)
    ensures Lacks(Body(cmd), '>')
  {
    if cmd.Color? {
      var R, G, B, S := IntToString(cmd.r), IntToString(cmd.g), IntToString(cmd.b), IntToString(SideCode(cmd.side));
      NumeralOf(cmd.r);
      NumeralOf(cmd.g);
      NumeralOf(cmd.b);
      NumeralOf(SideCode(cmd.side));
      ColorBodyLacksAngle(R, G, B, S);
    }
  }

  lemma ColorBodyLacksAngle(R: string, G: string, B: string, S: string)
    requires IsNumeral(R) && IsNumeral(G) && IsNumeral(B) && IsNumeral(S)
    ensures Lacks(ColorBody(R, G, B, S), '>')
  {
    NumeralLacks(R, '>');
    NumeralLacks(G, '>');
    NumeralLacks(B, '>');
    NumeralLacks(S, '>');
    LacksAppend("R: ", R, '>');
    LacksAppend("R: " + R, ", G: ", '>');
    LacksAppend("R: " + R + ", G: ", G, '>');
    LacksAppend("R: " + R + ", G: " + G, ", B: ", '>');
    LacksAppend("R: " + R + ", G: " + G + ", B: ", B, '>');
    LacksAppend("R: " + R + ", G: " + G + ", B: " + B, ", Side: ", '>');
    LacksAppend("R: " + R + ", G: " + G + ", B: " + B + ", Side: ", S, '>');
  }

  function Bodies(cmds: seq<Command>): (r: seq<string>)
    ensures |r| == |cmds| && forall k :: 0 <= k < |cmds| ==> r[k] == Body(cmds[k])
  {
    if cmds == [] then [] else [Body(cmds[0])] + Bodies(cmds[1..])
  }

  /** The text written for a sequence of commands, one frame after another. */
  function EncodeAll(cmds: seq<Command>): string {
    if cmds == [] then [] else Encode(cmds[0]) + EncodeAll(cmds[1..])
  }

  lemma {:induction false} EncodeAllIsJoin(cmds: seq<Command>)
    ensures EncodeAll(cmds) == Join(Bodies(cmds))
  {
    if cmds != [] {
      EncodeAllIsJoin(cmds[1..]);
      assert Bodies(cmds)[1..] == Bodies(cmds[1..]);
    }
  }

  /**
   * The frames are self-delimiting: splitting the written stream at its
   * terminators gives back exactly the command bodies, in order, with
   * nothing left over.
   */
  lemma CommandStreamSplits(cmds: seq<Command>)
    ensures Split(EncodeAll(cmds)) == Frames(Bodies(cmds), [])
  {
    EncodeAllIsJoin(cmds);
    forall k | 0 <= k < |cmds| ensures IsFrameBody(Bodies(cmds)[k]) {
      BodyLacksAngle(cmds[k]);
      NoAngleIsFrameBody(Body(cmds[k]));
    }
    assert !Contains([], Terminator);
    SplitCharacterised(Bodies(cmds), []);
    assert Join(Bodies(cmds)) + [] == Join(Bodies(cmds));
  }
}
