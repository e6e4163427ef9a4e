/** The control messages REGISTER and CONFIG (proto.c, util.c): built by
    appending to a buffer, read by cutting the text into words in place.

    `isIp` is what the C library takes for an IPv4 address. */
module Proto {
  import opened Wrappers
  import ServerTable

  const CTRL_WORD: string := "CAMEX"
  const PROTO_VER: nat := 2
  const TOKEN_LEN: nat := 64
  const CLIENT_ID_LEN: nat := 32
  const CIDR_LEN: nat := 32
  const IP_LEN: nat := 16
  const MAX_ROUTES: nat := 16
  const U32: nat := 0x1_0000_0000
  const U64: nat := 0x1_0000_0000_0000_0000

  /* ---- words ---- */

  predicate Blank(c: char) {
    c == ' ' || c == '\t' || c == '\r' || c == '\n'
  }

  predicate NoBlank(s: string) {
    forall i | 0 <= i < |s| :: !Blank(s[i])
  }

  /** The end of the word at the beginning of `s`. */
  function WordEnd(s: string): (n: nat)
    ensures n <= |s| && NoBlank(s[..n]) && (n < |s| ==> Blank(s[n]))
  {
    if s == [] || Blank(s[0]) then 0
    else
      var n := 1 + WordEnd(s[1..]);
      assert s[..n] == [s[0]] + s[1..][..n - 1];
      n
  }

  /** The words of a text. */
  function Words(s: string): seq<string>
    decreases |s|
  {
    if s == [] then []
    else if Blank(s[0]) then Words(s[1..])
    else [s[..WordEnd(s)]] + Words(s[WordEnd(s)..])
  }

  /** Words with one space between them. */
  function Joined(ws: seq<string>): string {
    if ws == [] then [] else if |ws| == 1 then ws[0] else ws[0] + " " + Joined(ws[1..])
  }

  predicate AreWords(ws: seq<string>) {
    forall i | 0 <= i < |ws| :: ws[i] != [] && NoBlank(ws[i])
  }

  lemma {:induction false} JoinedAppend(ws: seq<string>, w: string)
    requires ws != []
    ensures Joined(ws + [w]) == Joined(ws) + " " + w
  {
    if |ws| > 1 {
      assert (ws + [w])[1..] == ws[1..] + [w];
      JoinedAppend(ws[1..], w);
    } else {
      assert (ws + [w])[1..] == [w];
    }
  }

  lemma {:induction false} WordEndIs(w: string, rest: string)
    requires NoBlank(w) && (rest == [] || Blank(rest[0]))
    ensures WordEnd(w + rest) == |w|
  {
    if w != [] {
      assert (w + rest)[1..] == w[1..] + rest;
      WordEndIs(w[1..], rest);
    } else {
      assert w + rest == rest;
    }
  }

  lemma FirstWord(w: string, rest: string)
    requires w != [] && NoBlank(w) && (rest == [] || Blank(rest[0]))
    ensures Words(w + rest) == [w] + Words(rest)
  {
    WordEndIs(w, rest);
    assert (w + rest)[..|w|] == w && (w + rest)[|w|..] == rest;
  }

  /** Cutting a line of words gives the words back. */
  lemma {:induction false} WordsOfJoined(ws: seq<string>)
    requires AreWords(ws)
    ensures Words(Joined(ws) + "\n") == ws
  {
    if ws == [] {
      assert Joined(ws) + "\n" == "\n";
      assert "\n"[1..] == [];
    } else if |ws| == 1 {
      FirstWord(ws[0], "\n");
      assert "\n"[1..] == [];
    } else {
      var rest := " " + (Joined(ws[1..]) + "\n");
      assert Joined(ws) + "\n" == ws[0] + rest;
      FirstWord(ws[0], rest);
      assert rest[1..] == Joined(ws[1..]) + "\n";
      WordsOfJoined(ws[1..]);
    }
  }

  /** A text that strtok_r cuts up: each word's end is overwritten. */
  class Message {
    const text: array<char>
    var pos: nat
    ghost var original: string

    ghost predicate Valid()
      reads this, text
    {
      |original| == text.Length && pos <= text.Length && text[pos..] == original[pos..]
    }

    ghost function Left(): seq<string>
      reads this, text
      requires Valid()
    {
      Words(original[pos..])
    }

    constructor (s: string)
      ensures Valid() && original == s && Left() == Words(s) && fresh(text)
    {
      text := new char[|s|](i requires 0 <= i < |s| => s[i]);
      pos, original := 0, s;
      new;
      assert text[..] == s;
      assert s[0..] == s;
    }

    /** The next character that is not blank. */
    method Skip() returns (start: nat)
      requires pos <= text.Length
      ensures pos <= start <= text.Length && (start < text.Length ==> !Blank(text[start]))
      ensures Words(text[start..]) == Words(text[pos..])
    {
      start := pos;
      while start < text.Length && Blank(text[start])
        invariant pos <= start <= text.Length
        invariant Words(text[start..]) == Words(text[pos..])
      {
        assert text[start..][1..] == text[start + 1..];
        start := start + 1;
      }
    }

    method EndOf(start: nat) returns (end: nat)
      requires start <= text.Length
      ensures end == start + WordEnd(text[start..])
    {
      ghost var s := text[start..];
      end := start;
      while end < text.Length && !Blank(text[end])
        invariant start <= end <= start + WordEnd(s)
      {
        assert text[end] == s[end - start];
        end := end + 1;
      }
      if end < start + WordEnd(s) {
        assert text[end] == s[..WordEnd(s)][end - start];
      }
    }

    /** strtok_r */
    method Next() returns (token: Option<string>)
      requires Valid()
      modifies this, text
      ensures Valid() && original == old(original)
      ensures if old(Left()) == [] then token.None? else token == Some(old(Left())[0])
      ensures Left() == if token.Some? then old(Left())[1..] else []
    {
      hide WordEnd;
      var start := Skip();
      ghost var s := text[start..];
      if start == text.Length {
        assert s == [];
        return None;
      }
      assert s[0] == text[start];
      var end := EndOf(start);
      ghost var e := WordEnd(s);
      token := Some(text[start..end]);
      assert text[start..end] == s[..e];
      SameTail(text[..], original, pos, end);
      pos := end;
      if end < text.Length {
        assert s[e] == text[end] == text[..][end..][0] == original[end..][0] == original[end];
        TailWords(original, end);
        text[end] := '\0';
        pos := end + 1;
        assert text[pos..] == original[pos..];
      }
    }
  }

  lemma SameTail(t: string, original: string, pos: nat, end: nat)
    requires |t| == |original| && pos <= end <= |t| && t[pos..] == original[pos..]
    ensures t[end..] == original[end..]
  {
    assert t[end..] == t[pos..][end - pos..];
    assert original[end..] == original[pos..][end - pos..];
  }

  lemma TailWords(s: string, end: nat)
    requires end < |s| && Blank(s[end])
    ensures Words(s[end..]) == Words(s[end + 1..])
  {
    assert s[end..][1..] == s[end + 1..];
  }

  /* ---- the buffer of a built message ---- */

  class Buffer {
    const chars: array<char>
    var offset: nat

    ghost predicate Valid()
      reads this
    {
      offset <= chars.Length
    }

    ghost function Text(): string
      reads this, chars
      requires Valid()
    {
      chars[..offset]
    }

    constructor (size: nat)
      ensures Valid() && Text() == "" && chars.Length == size && fresh(chars)
    {
      chars := new char[size](_ => '\0');
      offset := 0;
    }

    /** append_control_field: the text and its terminator must fit; what does
        not fit is cut off, and the offset stays. */
    method Append(text: string) returns (ok: bool)
      requires Valid()
      modifies this, chars
      ensures Valid() && ok == (old(offset) + |text| < chars.Length)
      ensures Text() == if ok then old(Text()) + text else old(Text())
    {
      if offset >= chars.Length {
        return false;
      }
      var room := chars.Length - offset;
      var n := if |text| < room then |text| else room - 1;
      for i := 0 to n
        invariant offset == old(offset) && chars[..offset] == old(chars[..offset])
        invariant chars[offset..offset + i] == text[..i]
      {
        chars[offset + i] := text[i];
      }
      chars[offset + n] := '\0';
      if |text| >= room {
        return false;
      }
      assert chars[..offset + n] == chars[..offset] + chars[offset..offset + n];
      offset := offset + n;
      ok := true;
    }

    /** The first append: two words of the line `all`. */
    method Start(ghost all: seq<string>, text: string) returns (ok: bool)
      requires Valid() && Text() == "" && |all| >= 2 && text == all[0] + " " + all[1]
      modifies this, chars
      ensures Valid() && (if ok then Text() == Joined(all[..2]) else |Line(all)| >= chars.Length)
    {
      hide Joined;
      FirstWords(all);
      ok := Append(text);
      assert "" + text == text;
    }

    /** One append of " word" or " word word", the next words of `all`. */
    method AddWords(ghost all: seq<string>, ghost i: nat, ws: seq<string>) returns (ok: bool)
      requires Valid() && 0 < i && i + |ws| <= |all| && all[i..i + |ws|] == ws && Text() == Joined(all[..i])
      modifies this, chars
      ensures Valid()
      ensures if ok then Text() == Joined(all[..i + |ws|]) else |Line(all)| >= chars.Length
    {
      hide Joined;
      JoinedMore(all[..i], ws);
      Extend(all, i, i + |ws|);
      ok := Append(Spaced(ws));
    }

    /** An optional "key=value" word of the line `all`, after `before`. */
    method AddField(ghost all: seq<string>, ghost before: seq<string>, key: string, value: string) returns (ok: bool)
      requires Valid() && before != [] && before + Field(key, value) <= all && Text() == Joined(before)
      modifies this, chars
      ensures Valid()
      ensures if ok then Text() == Joined(before + Field(key, value)) else |Line(all)| >= chars.Length
    {
      hide Joined;
      ok := true;
      assert before + Field(key, value) == all[..|before| + |Field(key, value)|];
      assert all[..|before|] == before;
      if value != "" {
        ok := AddWords(all, |before|, [key + "=" + value]);
      } else {
        assert before + [] == before;
      }
    }

    /** The end of the line. */
    method EndLine(ghost ws: seq<string>) returns (ok: bool)
      requires Valid() && Text() == Joined(ws)
      modifies this, chars
      ensures Valid() && ok == (|Line(ws)| < chars.Length) && (ok ==> Text() == Line(ws))
    {
      ok := Append("\n");
    }
  }

  function Line(ws: seq<string>): string {
    Joined(ws) + "\n"
  }

  function Spaced(ws: seq<string>): string {
    if ws == [] then [] else " " + ws[0] + Spaced(ws[1..])
  }

  lemma {:induction false} JoinedMore(before: seq<string>, ws: seq<string>)
    requires before != []
    ensures Joined(before + ws) == Joined(before) + Spaced(ws)
    decreases |ws|
  {
    if ws == [] {
      assert before + ws == before;
    } else {
      JoinedAppend(before, ws[0]);
      JoinedMore(before + [ws[0]], ws[1..]);
      assert before + ws == before + [ws[0]] + ws[1..];
      assert (Joined(before) + " " + ws[0]) + Spaced(ws[1..]) == Joined(before) + (" " + ws[0] + Spaced(ws[1..]));
    }
  }

  /* ---- numbers ---- */

  predicate Digit(c: char) {
    '0' <= c <= '9'
  }

  function DigitValue(c: char): nat
    requires Digit(c)
  {
    (c - '0') as int
  }

  /** %d of a number that is not negative. */
  function Decimal(n: nat): (s: string)
    ensures s != [] && (forall i | 0 <= i < |s| :: Digit(s[i])) && NoBlank(s)
  {
    (if n < 10 then [] else Decimal(n / 10)) + ['0' + (n % 10) as char]
  }

  /** The value of digits, None if there is none or anything else. */
  function Digits(s: string): Option<nat> {
    if s == [] || !Digit(s[|s| - 1]) then None
    else if |s| == 1 then Some(DigitValue(s[0]))
    else
      match Digits(s[..|s| - 1])
      case None => None
      case Some(v) => Some(v * 10 + DigitValue(s[|s| - 1]))
  }

  lemma {:induction false} DecimalRoundTrip(n: nat)
    ensures Digits(Decimal(n)) == Some(n)
  {
    var s := Decimal(n);
    if n >= 10 {
      DecimalRoundTrip(n / 10);
      assert s[..|s| - 1] == Decimal(n / 10);
    }
  }

  predicate Space(c: char) {
    Blank(c) || c == '\U{000B}' || c == '\U{000C}'
  }

  /** strtol in base 10 over the whole text; None unless it is all number. */
  function Number(s: string): Option<int> {
    if s == [] then None
    else if Space(s[0]) then Number(s[1..])
    else if s[0] == '-' then
      (match Digits(s[1..]) case None => None case Some(v) => Some(-(v as int)))
    else if s[0] == '+' then
      (match Digits(s[1..]) case None => None case Some(v) => Some(v))
    else
      (match Digits(s) case None => None case Some(v) => Some(v))
  }

  /** What strtoul makes of a number, cut to 32 bits. */
  function Truncated(v: int): nat {
    (if 0 - U64 < v < U64 then v else U64 - 1) % U32
  }

  /** strtoul, then the cast to a 32-bit number. */
  function Unsigned32(s: string): Option<nat> {
    match Number(s)
    case None => None
    case Some(v) => Some(Truncated(v))
  }

  lemma NumberOfDecimal(n: nat)
    ensures Number(Decimal(n)) == Some(n)
  {
    DecimalRoundTrip(n);
    assert Digit(Decimal(n)[0]);
  }

  /* ---- values ---- */

  /** token_value: what stands after "key=", if it is there and short enough. */
  function Value(token: string, key: string): Option<string> {
    if |key| < |token| && token[..|key|] == key && token[|key|] == '=' && 0 < |token| - |key| - 1 < TOKEN_LEN
    then Some(token[|key| + 1..]) else None
  }

  lemma ValueOf(key: string, value: string)
    requires 0 < |value| < TOKEN_LEN
    ensures Value(key + "=" + value, key) == Some(value)
  {
    var t := key + "=" + value;
    assert t[..|key|] == key && t[|key|] == '=' && t[|key| + 1..] == value;
  }

  function SlashAt(s: string): (k: nat)
    ensures k <= |s|
  {
    if s == [] || s[0] == '/' then 0 else 1 + SlashAt(s[1..])
  }

  /** validate_route_cidr, of a text that is not empty. */
  predicate RouteOk(s: string, isIp: string -> bool) {
    var k := SlashAt(s);
    && |s| < CIDR_LEN && 0 < k && k + 1 < |s| && isIp(s[..k])
    && Number(s[k + 1..]).Some? && 0 <= Number(s[k + 1..]).value <= 32
  }

  /** parse_local_cidr */
  predicate CidrOk(s: string, isIp: string -> bool) {
    RouteOk(s, isIp) && SlashAt(s) < IP_LEN
  }

  /** parse_mtu */
  function Mtu(s: string): Option<nat> {
    if Number(s).Some? && 576 <= Number(s).value <= 9000 then Some(Number(s).value) else None
  }

  /* ---- REGISTER ---- */

  /** What a REGISTER says. */
  datatype Register = Register(auto: bool, clientId: string, localIp: string)

  function RegisterWords(r: Register): seq<string> {
    ["CAMEX", "REGISTER", "VER=" + Decimal(PROTO_VER)]
    + if r.auto then
        ["MODE=AUTO", "CLIENT_ID=" + r.clientId] + (if r.localIp != "" then ["LOCAL_IP=" + r.localIp] else [])
      else
        ["MODE=MANUAL", "LOCAL_IP=" + r.localIp] + (if r.clientId != "" then ["CLIENT_ID=" + r.clientId] else [])
  }

  lemma JoinedGrows(a: seq<string>, b: seq<string>)
    requires a != []
    ensures |Joined(a)| <= |Joined(a + b)|
  {
    JoinedMore(a, b);
  }

  /** proto_build_register: all or nothing of the line. */
  method BuildRegister(r: Register, b: Buffer) returns (ok: bool)
    requires b.Valid() && b.Text() == ""
    modifies b, b.chars
    ensures b.Valid() && ok == (|Line(RegisterWords(r))| < b.chars.Length)
    ensures ok ==> b.Text() == Line(RegisterWords(r))
  {
    hide Joined, Decimal;
    ghost var all := RegisterWords(r);
    ok := b.Start(all, "CAMEX REGISTER");
    if !ok {
      return;
    }
    var ver := "VER=" + Decimal(PROTO_VER);
    assert all[2] == ver && all[2..3] == [all[2]];
    ok := b.AddWords(all, 2, [ver]);
    if !ok {
      return;
    }
    var fields := if r.auto then ["MODE=AUTO", "CLIENT_ID=" + r.clientId] else ["MODE=MANUAL", "LOCAL_IP=" + r.localIp];
    assert all[3..5] == [all[3], all[4]] == fields;
    ok := b.AddWords(all, 3, fields);
    if !ok {
      return;
    }
    if r.auto {
      if r.localIp != "" {
        ok := b.AddWords(all, 5, ["LOCAL_IP=" + r.localIp]);
      }
    } else if r.clientId != "" {
      ok := b.AddWords(all, 5, ["CLIENT_ID=" + r.clientId]);
    }
    if !ok {
      return;
    }
    assert all[..|all|] == all;
    ok := b.EndLine(all);
  }

  lemma FirstWords(all: seq<string>)
    requires |all| >= 2
    ensures Joined(all[..2]) == all[0] + " " + all[1] && |Joined(all[..2])| < |Line(all)|
  {
    assert all[..2][1..] == [all[1]];
    JoinedGrows(all[..2], all[2..]);
    assert all == all[..2] + all[2..];
  }

  lemma Extend(all: seq<string>, i: nat, j: nat)
    requires 0 < i <= j <= |all|
    ensures all[..i] + all[i..j] == all[..j] && |Joined(all[..j])| < |Line(all)|
  {
    assert all == all[..j] + all[j..];
    JoinedGrows(all[..j], all[j..]);
  }

  /** What the words so far say, and whether a MODE was among them. */
  datatype Reading = Reading(r: Register, sawMode: bool)

  /** One word of a REGISTER; None rejects the message. */
  function ReadWord(x: Reading, token: string, isIp: string -> bool): Option<Reading> {
    if Value(token, "VER").Some? then
      var v := Unsigned32(Value(token, "VER").value);
      if v.None? || v.value > PROTO_VER then None else Some(x)
    else if Value(token, "MODE").Some? then
      var mode := Value(token, "MODE").value;
      if ServerTable.SameId(mode, "AUTO") then Some(Reading(x.r.(auto := true), true))
      else if ServerTable.SameId(mode, "MANUAL") then Some(Reading(x.r.(auto := false), true))
      else None
    else if Value(token, "CLIENT_ID").Some? then
      var id := Value(token, "CLIENT_ID").value;
      if |id| < CLIENT_ID_LEN then Some(x.(r := x.r.(clientId := id))) else None
    else if Value(token, "LOCAL_IP").Some? then
      var ip := Value(token, "LOCAL_IP").value;
      if |ip| < IP_LEN then Some(x.(r := x.r.(localIp := ip))) else None
    else if !x.sawMode && x.r.clientId == "" && x.r.localIp == "" then
      if isIp(token) && 0 < |token| < IP_LEN then Some(x.(r := x.r.(localIp := token, auto := false))) else None
    else None
  }

  function ReadWords(x: Reading, ws: seq<string>, isIp: string -> bool): Option<Reading>
    decreases |ws|
  {
    if ws == [] then Some(x)
    else
      match ReadWord(x, ws[0], isIp)
      case None => None
      case Some(y) => ReadWords(y, ws[1..], isIp)
  }

  const NOTHING := Reading(Register(false, "", ""), false)

  function Accepted(r: Register): bool {
    if r.auto then r.clientId != "" else r.localIp != ""
  }

  function ParsedRegister(ws: seq<string>, isIp: string -> bool): Option<Register> {
    if |ws| < 2 || ws[0] != CTRL_WORD || ws[1] != "REGISTER" then None
    else
      match ReadWords(NOTHING, ws[2..], isIp)
      case None => None
      case Some(x) => if Accepted(x.r) then Some(x.r) else None
  }

  /** proto_parse_register */
  method ParseRegister(message: string, isIp: string -> bool) returns (r: Option<Register>)
    ensures r == ParsedRegister(Words(message), isIp)
  {
    hide Words, ReadWord;
    var m := new Message(message);
    var token := m.Next();
    if token.None? || token.value != CTRL_WORD {
      return None;
    }
    token := m.Next();
    if token.None? || token.value != "REGISTER" {
      return None;
    }
    var x := NOTHING;
    ghost var rest := m.Left();
    assert Words(message)[2..] == rest;
    token := m.Next();
    while token.Some?
      invariant m.Valid() && fresh(m) && fresh(m.text)
      invariant ReadWords(NOTHING, Words(message)[2..], isIp)
             == ReadWords(x, (if token.Some? then [token.value] else []) + m.Left(), isIp)
      invariant token.None? ==> m.Left() == []
      decreases token.Some?, |m.Left()|
    {
      ghost var ws := [token.value] + m.Left();
      assert ws[1..] == m.Left();
      var y := ReadWord(x, token.value, isIp);
      if y.None? {
        return None;
      }
      x := y.value;
      ghost var left := m.Left();
      token := m.Next();
      assert left == (if token.Some? then [token.value] else []) + m.Left();
    }
    r := if Accepted(x.r) then Some(x.r) else None;
  }

  lemma {:induction false} WordsAreWords(s: string)
    ensures AreWords(Words(s))
    decreases |s|
  {
    if s != [] {
      if Blank(s[0]) {
        WordsAreWords(s[1..]);
      } else {
        WordsAreWords(s[WordEnd(s)..]);
      }
    }
  }

  predicate Clean(r: Register) {
    NoBlank(r.clientId) && NoBlank(r.localIp)
  }

  lemma {:induction false} ReadIsClean(x: Reading, ws: seq<string>, isIp: string -> bool)
    requires AreWords(ws) && Clean(x.r)
    ensures ReadWords(x, ws, isIp).Some? ==> Clean(ReadWords(x, ws, isIp).value.r)
    decreases |ws|
  {
    if ws != [] && ReadWord(x, ws[0], isIp).Some? {
      assert NoBlank(ws[0]);
      ReadIsClean(ReadWord(x, ws[0], isIp).value, ws[1..], isIp);
    }
  }

  /** Parsing a built REGISTER gives back mode, ID and address, exactly if
      they are blank-free and those the mode needs are there. */
  lemma RegisterRoundTrip(r: Register, isIp: string -> bool)
    requires |r.clientId| < CLIENT_ID_LEN && |r.localIp| < IP_LEN
    ensures ParsedRegister(Words(Line(RegisterWords(r))), isIp) == Some(r) <==> Clean(r) && Accepted(r)
  {
    var line := Line(RegisterWords(r));
    if Clean(r) && Accepted(r) {
      RegisterWordsAreWords(r);
      WordsOfJoined(RegisterWords(r));
      ReadRegister(r, isIp);
    }
    WordsAreWords(line);
    if ParsedRegister(Words(line), isIp).Some? {
      ReadIsClean(NOTHING, Words(line)[2..], isIp);
    }
  }

  lemma RegisterWordsAreWords(r: Register)
    requires Clean(r)
    ensures AreWords(RegisterWords(r))
  {
    hide NoBlank, Decimal;
    var ws := RegisterWords(r);
    KeyAndValue("VER=", Decimal(PROTO_VER));
    KeyAndValue("CLIENT_ID=", r.clientId);
    KeyAndValue("LOCAL_IP=", r.localIp);
    PlainWords();
  }

  lemma PlainWords()
    ensures NoBlank("CAMEX") && NoBlank("REGISTER") && NoBlank("MODE=AUTO") && NoBlank("MODE=MANUAL")
    ensures NoBlank("VER=") && NoBlank("CLIENT_ID=") && NoBlank("LOCAL_IP=")
  {
  }

  lemma KeyAndValue(key: string, value: string)
    ensures NoBlank(key) && NoBlank(value) ==> NoBlank(key + value)
  {
  }

  lemma ReadRegister(r: Register, isIp: string -> bool)
    requires |r.clientId| < CLIENT_ID_LEN && |r.localIp| < IP_LEN && Accepted(r)
    ensures ParsedRegister(RegisterWords(r), isIp) == Some(r)
  {
    var ws := RegisterWords(r);
    hide ReadWord, Value;
    ReadVer(NOTHING, isIp);
    var x := Reading(r.(clientId := "", localIp := ""), true);
    ReadMode(NOTHING, r.auto, isIp);
    assert ReadWords(NOTHING, ws[2..], isIp) == ReadWords(x, ws[4..], isIp) by {
      assert ws[2..][1..] == ws[3..] && ws[3..][1..] == ws[4..];
    }
    if r.auto {
      ReadId(x, r.clientId, isIp);
      var y := x.(r := x.r.(clientId := r.clientId));
      assert ws[4..][1..] == ws[5..];
      if r.localIp != "" {
        ReadIp(y, r.localIp, isIp);
        LastWord(y, "LOCAL_IP=" + r.localIp, isIp);
        assert ws[5..] == ["LOCAL_IP=" + r.localIp];
      } else {
        assert ws[5..] == [] && ReadWords(y, [], isIp) == Some(Reading(r, true));
      }
    } else {
      ReadIp(x, r.localIp, isIp);
      var y := x.(r := x.r.(localIp := r.localIp));
      assert ws[4..][1..] == ws[5..];
      if r.clientId != "" {
        ReadId(y, r.clientId, isIp);
        LastWord(y, "CLIENT_ID=" + r.clientId, isIp);
        assert ws[5..] == ["CLIENT_ID=" + r.clientId];
      } else {
        assert ws[5..] == [] && ReadWords(y, [], isIp) == Some(Reading(r, true));
      }
    }
  }

  lemma LastWord(x: Reading, w: string, isIp: string -> bool)
    ensures ReadWords(x, [w], isIp) == ReadWord(x, w, isIp)
  {
    assert [w][1..] == [];
  }

  lemma NotKey(token: string, key: string, i: nat)
    requires i < |key| && i < |token| && token[i] != key[i]
    ensures Value(token, key) == None
  {
    if |key| < |token| {
      assert token[..|key|][i] != key[i];
    }
  }

  lemma ReadVer(x: Reading, isIp: string -> bool)
    ensures ReadWord(x, "VER=" + Decimal(PROTO_VER), isIp) == Some(x)
  {
    ValueOf("VER", Decimal(PROTO_VER));
    assert "VER" + "=" + Decimal(PROTO_VER) == "VER=" + Decimal(PROTO_VER);
    NumberOfDecimal(PROTO_VER);
  }

  lemma ReadMode(x: Reading, auto: bool, isIp: string -> bool)
    ensures ReadWord(x, if auto then "MODE=AUTO" else "MODE=MANUAL", isIp) == Some(Reading(x.r.(auto := auto), true))
  {
    var mode := if auto then "AUTO" else "MANUAL";
    ValueOf("MODE", mode);
    assert "MODE" + "=" + mode == if auto then "MODE=AUTO" else "MODE=MANUAL";
    NotKey("MODE=" + mode, "VER", 0);
    assert |ServerTable.Fold("MANUAL")| != |ServerTable.Fold("AUTO")|;
  }

  lemma ReadId(x: Reading, id: string, isIp: string -> bool)
    requires 0 < |id| < CLIENT_ID_LEN
    ensures ReadWord(x, "CLIENT_ID=" + id, isIp) == Some(x.(r := x.r.(clientId := id)))
  {
    ValueOf("CLIENT_ID", id);
    assert "CLIENT_ID" + "=" + id == "CLIENT_ID=" + id;
    NotKey("CLIENT_ID=" + id, "VER", 0);
    NotKey("CLIENT_ID=" + id, "MODE", 0);
  }

  lemma ReadIp(x: Reading, ip: string, isIp: string -> bool)
    requires 0 < |ip| < IP_LEN
    ensures ReadWord(x, "LOCAL_IP=" + ip, isIp) == Some(x.(r := x.r.(localIp := ip)))
  {
    ValueOf("LOCAL_IP", ip);
    assert "LOCAL_IP" + "=" + ip == "LOCAL_IP=" + ip;
    NotKey("LOCAL_IP=" + ip, "VER", 0);
    NotKey("LOCAL_IP=" + ip, "MODE", 0);
    NotKey("LOCAL_IP=" + ip, "CLIENT_ID", 0);
  }

  /** A version is compared after the cut to 32 bits. */
  predicate VersionPasses(n: nat) {
    n < U64 && n % U32 <= PROTO_VER
  }

  /** Exactly which versions pass. */
  lemma VersionIsCut(x: Reading, n: nat, isIp: string -> bool)
    requires |Decimal(n)| < TOKEN_LEN
    ensures ReadWord(x, "VER=" + Decimal(n), isIp) == if VersionPasses(n) then Some(x) else None
  {
    hide Decimal, Number, Value, Truncated, VersionPasses;
    ValueOf("VER", Decimal(n));
    assert "VER" + "=" + Decimal(n) == "VER=" + Decimal(n);
    NumberOfDecimal(n);
    CutOf(n);
  }

  lemma CutOf(n: nat)
    ensures Truncated(n) <= PROTO_VER <==> VersionPasses(n)
  {
  }

  /** The REGISTER of a client with another protocol version. */
  function WordsAtVersion(r: Register, n: nat): seq<string> {
    RegisterWords(r)[2 := "VER=" + Decimal(n)]
  }

  /** A REGISTER of any version is read just as one of the server's version,
      or rejected: exactly those whose version passes the cut are read. */
  lemma RegisterAtVersion(r: Register, n: nat, isIp: string -> bool)
    requires |r.clientId| < CLIENT_ID_LEN && |r.localIp| < IP_LEN && Clean(r) && Accepted(r)
    requires |Decimal(n)| < TOKEN_LEN
    ensures ParsedRegister(Words(Line(WordsAtVersion(r, n))), isIp) == if VersionPasses(n) then Some(r) else None
  {
    hide ReadWord, Decimal, NoBlank;
    var ws, ws' := RegisterWords(r), WordsAtVersion(r, n);
    RegisterWordsAreWords(r);
    KeyAndValue("VER=", Decimal(n));
    PlainWords();
    WordsOfJoined(ws');
    ReadRegister(r, isIp);
    ReadVer(NOTHING, isIp);
    VersionIsCut(NOTHING, n, isIp);
    assert ws'[2..][1..] == ws[2..][1..];
  }

  lemma MoreDigits(n: nat, s: string, t: string)
    requires n > 0 && Decimal(n) == s && |t| == 2 && Digit(t[0]) && Digit(t[1])
    ensures Decimal(100 * n + 10 * DigitValue(t[0]) + DigitValue(t[1])) == s + t
  {
    var m := 10 * n + DigitValue(t[0]);
    assert Decimal(m) == Decimal(n) + [t[0]];
    assert Decimal(10 * m + DigitValue(t[1])) == Decimal(m) + [t[1]];
  }

  lemma FarVersionText()
    ensures Decimal(4294967298) == "4294967298"
  {
    assert Decimal(4) == "4";
    assert Decimal(42) == "42";
    hide Decimal;
    MoreDigits(42, "42", "94");
    MoreDigits(4294, "4294", "96");
    MoreDigits(429496, "429496", "72");
    MoreDigits(42949672, "42949672", "98");
  }

  lemma FarVersionLine()
    ensures "CAMEX" + " " + "REGISTER" + " " + "VER=4294967298" + " " + "MODE=AUTO" + " " + "CLIENT_ID=a" + "\n"
         == "CAMEX REGISTER VER=4294967298 MODE=AUTO CLIENT_ID=a\n"
  {
    assert "CAMEX" + " " + "REGISTER" == "CAMEX REGISTER";
    assert "CAMEX REGISTER" + " " + "VER=4294967298" == "CAMEX REGISTER VER=4294967298";
    assert "CAMEX REGISTER VER=4294967298" + " " + "MODE=AUTO" == "CAMEX REGISTER VER=4294967298 MODE=AUTO";
  }

  lemma FiveWords(ws: seq<string>)
    requires |ws| == 5
    ensures Joined(ws) == ws[0] + " " + ws[1] + " " + ws[2] + " " + ws[3] + " " + ws[4]
  {
    JoinedAppend(ws[..1], ws[1]);
    JoinedAppend(ws[..2], ws[2]);
    JoinedAppend(ws[..3], ws[3]);
    JoinedAppend(ws[..4], ws[4]);
    assert ws[..1] + [ws[1]] == ws[..2] && ws[..2] + [ws[2]] == ws[..3] && ws[..3] + [ws[3]] == ws[..4];
    assert ws[..4] + [ws[4]] == ws;
  }

  /** A version far too high that is taken for the server's own. */
  lemma FarVersionIsRead(isIp: string -> bool)
    ensures ParsedRegister(Words("CAMEX REGISTER VER=4294967298 MODE=AUTO CLIENT_ID=a\n"), isIp)
         == Some(Register(true, "a", ""))
  {
    hide Decimal, Joined, Words, ParsedRegister;
    var r := Register(true, "a", "");
    FarVersionText();
    RegisterAtVersion(r, 4294967298, isIp);
    var ws := WordsAtVersion(r, 4294967298);
    FiveWords(ws);
    assert ws[0] == "CAMEX" && ws[1] == "REGISTER" && ws[2] == "VER=4294967298";
    assert ws[3] == "MODE=AUTO" && ws[4] == "CLIENT_ID=a";
    FarVersionLine();
    assert Line(ws) == "CAMEX REGISTER VER=4294967298 MODE=AUTO CLIENT_ID=a\n";
  }

  function Pow10(k: nat): nat {
    if k == 0 then 1 else 10 * Pow10(k - 1)
  }

  lemma {:induction false} DecimalLength(n: nat, k: nat)
    requires n < Pow10(k) && k > 0
    ensures |Decimal(n)| <= k
  {
    if n >= 10 {
      DecimalLength(n / 10, k - 1);
    }
  }

  /* ---- CONFIG ---- */

  datatype Profile = Profile(localCidr: string, gatewayIp: string, mtu: nat, routes: seq<string>)

  const EMPTY_PROFILE := Profile("", "", 0, [])

  function Field(key: string, value: string): seq<string> {
    if value == "" then [] else [key + "=" + value]
  }

  function RouteFields(routes: seq<string>): seq<string> {
    seq(|routes|, i requires 0 <= i < |routes| => "ROUTE_CIDR=" + routes[i])
  }

  function MtuText(mtu: nat): string {
    if mtu > 0 then Decimal(mtu) else ""
  }

  function HeadWords(clientId: string, p: Profile): seq<string> {
    ["CAMEX", "CONFIG", "VER=" + Decimal(PROTO_VER)] + Field("CLIENT_ID", clientId)
    + Field("MTU", MtuText(p.mtu))
    + Field("LOCAL_CIDR", p.localCidr) + Field("GATEWAY_IP", p.gatewayIp)
  }

  function ConfigWords(clientId: string, p: Profile): seq<string> {
    HeadWords(clientId, p) + RouteFields(p.routes)
  }

  /** proto_build_config */
  method BuildConfig(clientId: string, p: Profile, b: Buffer) returns (ok: bool)
    requires b.Valid() && b.Text() == ""
    modifies b, b.chars
    ensures b.Valid() && ok == (|Line(ConfigWords(clientId, p))| < b.chars.Length)
    ensures ok ==> b.Text() == Line(ConfigWords(clientId, p))
  {
    hide Joined, Decimal;
    ghost var all := ConfigWords(clientId, p);
    ok := b.Start(all, "CAMEX CONFIG");
    if !ok {
      return;
    }
    ghost var w0, w1, w2, w3, w4 := HeadParts(clientId, p);
    assert all[..3] == w0 && all[2] == w0[2];
    assert all[2..3] == [all[2]];
    ok := b.AddWords(all, 2, ["VER=" + Decimal(PROTO_VER)]);
    if !ok {
      return;
    }
    ok := b.AddField(all, w0, "CLIENT_ID", clientId);
    if !ok {
      return;
    }
    ok := b.AddField(all, w1, "MTU", MtuText(p.mtu));
    if !ok {
      return;
    }
    ok := b.AddField(all, w2, "LOCAL_CIDR", p.localCidr);
    if !ok {
      return;
    }
    ok := b.AddField(all, w3, "GATEWAY_IP", p.gatewayIp);
    if !ok {
      return;
    }
    ok := AddRoutes(all, w4, p.routes, b);
    if !ok {
      return;
    }
    ok := b.EndLine(all);
  }

  method AddRoutes(ghost all: seq<string>, ghost head: seq<string>, routes: seq<string>, b: Buffer) returns (ok: bool)
    requires b.Valid() && head != [] && all == head + RouteFields(routes) && b.Text() == Joined(head)
    modifies b, b.chars
    ensures b.Valid() && (if ok then b.Text() == Joined(all) else |Line(all)| >= b.chars.Length)
  {
    hide Joined;
    assert all[..|head|] == head;
    for i := 0 to |routes|
      invariant b.Valid() && b.Text() == Joined(all[..|head| + i])
    {
      assert all[|head| + i] == "ROUTE_CIDR=" + routes[i];
      ok := b.AddWords(all, |head| + i, ["ROUTE_CIDR=" + routes[i]]);
      if !ok {
        return;
      }
    }
    assert all[..|all|] == all;
    ok := true;
  }

  /** The line grows by one field at a time. */
  lemma HeadParts(clientId: string, p: Profile)
    returns (w0: seq<string>, w1: seq<string>, w2: seq<string>, w3: seq<string>, w4: seq<string>)
    ensures w0 == ["CAMEX", "CONFIG", "VER=" + Decimal(PROTO_VER)]
    ensures w1 == w0 + Field("CLIENT_ID", clientId) && w2 == w1 + Field("MTU", MtuText(p.mtu))
    ensures w3 == w2 + Field("LOCAL_CIDR", p.localCidr) && w4 == w3 + Field("GATEWAY_IP", p.gatewayIp)
    ensures w4 == HeadWords(clientId, p)
    ensures w1 <= w2 <= w3 <= w4 <= ConfigWords(clientId, p) && w1 <= ConfigWords(clientId, p)
    ensures w2 <= ConfigWords(clientId, p) && w3 <= ConfigWords(clientId, p)
  {
    w0 := ["CAMEX", "CONFIG", "VER=" + Decimal(PROTO_VER)];
    w1 := w0 + Field("CLIENT_ID", clientId);
    w2 := w1 + Field("MTU", MtuText(p.mtu));
    w3 := w2 + Field("LOCAL_CIDR", p.localCidr);
    w4 := w3 + Field("GATEWAY_IP", p.gatewayIp);
  }

  /** The part of the client's configuration a CONFIG sets. */
  datatype Settings = Settings(profile: Profile, clientId: string)

  /** One word of a CONFIG; None rejects the message. */
  function TakeWord(x: Settings, token: string, isIp: string -> bool): Option<Settings> {
    if Value(token, "CLIENT_ID").Some? then
      var id := Value(token, "CLIENT_ID").value;
      if |id| < CLIENT_ID_LEN then Some(x.(clientId := id)) else None
    else if Value(token, "LOCAL_CIDR").Some? then
      var cidr := Value(token, "LOCAL_CIDR").value;
      if |cidr| < CIDR_LEN then Some(x.(profile := x.profile.(localCidr := cidr))) else None
    else if Value(token, "GATEWAY_IP").Some? then
      var ip := Value(token, "GATEWAY_IP").value;
      if |ip| < IP_LEN then Some(x.(profile := x.profile.(gatewayIp := ip))) else None
    else if Value(token, "ROUTE_CIDR").Some? then
      var route := Value(token, "ROUTE_CIDR").value;
      if |x.profile.routes| < MAX_ROUTES && RouteOk(route, isIp)
      then Some(x.(profile := x.profile.(routes := x.profile.routes + [route]))) else None
    else if Value(token, "MTU").Some? then
      var mtu := Mtu(Value(token, "MTU").value);
      if mtu.Some? then Some(x.(profile := x.profile.(mtu := mtu.value))) else None
    else if Value(token, "VER").Some? then Some(x)
    else None
  }

  function TakeWords(x: Settings, ws: seq<string>, isIp: string -> bool): Option<Settings>
    decreases |ws|
  {
    if ws == [] then Some(x)
    else
      match TakeWord(x, ws[0], isIp)
      case None => None
      case Some(y) => TakeWords(y, ws[1..], isIp)
  }

  /** The checks on the whole message. `own` is the client's ID. */
  predicate Acceptable(x: Settings, own: string, isIp: string -> bool) {
    && CidrOk(x.profile.localCidr, isIp) && x.profile.gatewayIp != "" && isIp(x.profile.gatewayIp)
    && (own == "" || x.clientId == "" || ServerTable.SameId(own, x.clientId))
  }

  /** config_apply_profile, and the ID if there is one. */
  function Applied(before: Settings, x: Settings): Settings {
    Settings(x.profile.(mtu := if x.profile.mtu > 0 then x.profile.mtu else before.profile.mtu),
             if x.clientId != "" then x.clientId else before.clientId)
  }

  function ParsedConfig(before: Settings, ws: seq<string>, isIp: string -> bool): Option<Settings> {
    if |ws| < 2 || ws[0] != CTRL_WORD || ws[1] != "CONFIG" then None
    else
      match TakeWords(Settings(EMPTY_PROFILE, before.clientId), ws[2..], isIp)
      case None => None
      case Some(x) => if Acceptable(x, before.clientId, isIp) then Some(Applied(before, x)) else None
  }

  /** The client's configuration. */
  class ClientConfig {
    var localCidr: string
    var gatewayIp: string
    var mtu: nat
    var routes: seq<string>
    var clientId: string

    function Value(): Settings
      reads this
    {
      Settings(Profile(localCidr, gatewayIp, mtu, routes), clientId)
    }

    constructor (clientId: string, mtu: nat)
      ensures Value() == Settings(EMPTY_PROFILE.(mtu := mtu), clientId)
    {
      localCidr, gatewayIp, this.mtu, routes, this.clientId := "", "", mtu, [], clientId;
    }

    /** config_apply_profile */
    method Apply(p: Profile) returns (ok: bool)
      requires |p.routes| <= MAX_ROUTES
      modifies this
      ensures ok <==> p.localCidr != "" && p.gatewayIp != ""
      ensures Value() == if ok then old(Value()).(profile := p.(mtu := if p.mtu > 0 then p.mtu else old(mtu)))
                         else old(Value())
    {
      if p.localCidr == "" || p.gatewayIp == "" {
        return false;
      }
      localCidr, gatewayIp, routes := p.localCidr, p.gatewayIp, [];
      for i := 0 to |p.routes|
        invariant Value() == Settings(Profile(p.localCidr, p.gatewayIp, old(mtu), p.routes[..i]), old(clientId))
      {
        routes := routes + [p.routes[i]];
      }
      if p.mtu > 0 {
        mtu := p.mtu;
      }
      ok := true;
    }

    /** proto_parse_config: a rejected CONFIG changes nothing. */
    method Parse(message: string, isIp: string -> bool) returns (ok: bool)
      modifies this
      ensures ok <==> ParsedConfig(old(Value()), Words(message), isIp).Some?
      ensures Value() == if ok then ParsedConfig(old(Value()), Words(message), isIp).value else old(Value())
    {
      hide Words, TakeWord, Acceptable;
      var x := TakeAll(message, isIp, clientId);
      if x.None? || !Acceptable(x.value, clientId, isIp) {
        return false;
      }
      AcceptableHasAddress(x.value, clientId, isIp);
      TakesFewRoutes(Settings(EMPTY_PROFILE, clientId), Words(message)[2..], isIp);
      ok := Apply(x.value.profile);
      if x.value.clientId != "" {
        clientId := x.value.clientId;
      }
    }
  }

  lemma AcceptableHasAddress(x: Settings, own: string, isIp: string -> bool)
    requires Acceptable(x, own, isIp)
    ensures x.profile.localCidr != "" && x.profile.gatewayIp != ""
  {
  }

  lemma {:induction false} TakesFewRoutes(x: Settings, ws: seq<string>, isIp: string -> bool)
    requires |x.profile.routes| <= MAX_ROUTES
    ensures TakeWords(x, ws, isIp).Some? ==> |TakeWords(x, ws, isIp).value.profile.routes| <= MAX_ROUTES
    decreases |ws|
  {
    if ws != [] && TakeWord(x, ws[0], isIp).Some? {
      TakesFewRoutes(TakeWord(x, ws[0], isIp).value, ws[1..], isIp);
    }
  }

  /** The words of a CONFIG, put together on the side. */
  method TakeAll(message: string, isIp: string -> bool, clientId: string) returns (r: Option<Settings>)
    ensures var ws := Words(message);
            r == if |ws| < 2 || ws[0] != CTRL_WORD || ws[1] != "CONFIG" then None
                 else TakeWords(Settings(EMPTY_PROFILE, clientId), ws[2..], isIp)
  {
    hide Words, TakeWord;
    var m := new Message(message);
    var token := m.Next();
    if token.None? || token.value != CTRL_WORD {
      return None;
    }
    token := m.Next();
    if token.None? || token.value != "CONFIG" {
      return None;
    }
    var x := Settings(EMPTY_PROFILE, clientId);
    ghost var all := m.Left();
    assert Words(message)[2..] == all;
    token := m.Next();
    while token.Some?
      invariant m.Valid() && fresh(m) && fresh(m.text)
      invariant TakeWords(Settings(EMPTY_PROFILE, clientId), all, isIp)
             == TakeWords(x, (if token.Some? then [token.value] else []) + m.Left(), isIp)
      invariant token.None? ==> m.Left() == []
      decreases token.Some?, |m.Left()|
    {
      ghost var ws := [token.value] + m.Left();
      assert ws[1..] == m.Left();
      var y := TakeWord(x, token.value, isIp);
      if y.None? {
        return None;
      }
      x := y.value;
      ghost var left := m.Left();
      token := m.Next();
      assert left == (if token.Some? then [token.value] else []) + m.Left();
    }
    r := Some(x);
  }

  /* ---- the round trip of a CONFIG ---- */

  /** What the server has checked of the fields it sends. */
  predicate ValidFields(clientId: string, p: Profile, isIp: string -> bool) {
    && |clientId| < CLIENT_ID_LEN && CidrOk(p.localCidr, isIp)
    && 0 < |p.gatewayIp| < IP_LEN && isIp(p.gatewayIp)
    && |p.routes| <= MAX_ROUTES && (forall i | 0 <= i < |p.routes| :: RouteOk(p.routes[i], isIp))
    && (p.mtu == 0 || 576 <= p.mtu <= 9000)
  }

  predicate Plain(clientId: string, p: Profile) {
    && NoBlank(clientId) && NoBlank(p.localCidr) && NoBlank(p.gatewayIp)
    && forall i | 0 <= i < |p.routes| :: NoBlank(p.routes[i])
  }

  lemma {:induction false} TakeAppend(x: Settings, a: seq<string>, b: seq<string>, isIp: string -> bool)
    requires TakeWords(x, a, isIp).Some?
    ensures TakeWords(x, a + b, isIp) == TakeWords(TakeWords(x, a, isIp).value, b, isIp)
    decreases |a|
  {
    if a == [] {
      assert a + b == b;
    } else {
      assert (a + b)[1..] == a[1..] + b;
      TakeAppend(TakeWord(x, a[0], isIp).value, a[1..], b, isIp);
    }
  }

  lemma TakeOne(x: Settings, w: string, isIp: string -> bool)
    ensures TakeWords(x, [w], isIp) == TakeWord(x, w, isIp)
  {
    assert [w][1..] == [];
  }

  lemma TakeVer(x: Settings, isIp: string -> bool)
    ensures TakeWord(x, "VER=" + Decimal(PROTO_VER), isIp) == Some(x)
  {
    var t := "VER=" + Decimal(PROTO_VER);
    ValueOf("VER", Decimal(PROTO_VER));
    assert "VER" + "=" + Decimal(PROTO_VER) == t;
    NotKey(t, "CLIENT_ID", 0);
    NotKey(t, "LOCAL_CIDR", 0);
    NotKey(t, "GATEWAY_IP", 0);
    NotKey(t, "ROUTE_CIDR", 0);
    NotKey(t, "MTU", 0);
  }

  lemma TakeId(x: Settings, id: string, isIp: string -> bool)
    requires |id| < CLIENT_ID_LEN
    ensures TakeWords(x, Field("CLIENT_ID", id), isIp) == Some(if id == "" then x else x.(clientId := id))
  {
    if id != "" {
      ValueOf("CLIENT_ID", id);
      TakeOne(x, "CLIENT_ID" + "=" + id, isIp);
    }
  }

  lemma TakeMtu(x: Settings, mtu: nat, isIp: string -> bool)
    requires mtu == 0 || 576 <= mtu <= 9000
    ensures TakeWords(x, Field("MTU", MtuText(mtu)), isIp)
         == Some(if mtu == 0 then x else x.(profile := x.profile.(mtu := mtu)))
  {
    if mtu > 0 {
      var t := "MTU" + "=" + Decimal(mtu);
      DecimalLength(mtu, 4);
      ValueOf("MTU", Decimal(mtu));
      NumberOfDecimal(mtu);
      NotKey(t, "CLIENT_ID", 0);
      NotKey(t, "LOCAL_CIDR", 0);
      NotKey(t, "GATEWAY_IP", 0);
      NotKey(t, "ROUTE_CIDR", 0);
      TakeOne(x, t, isIp);
    }
  }

  lemma TakeCidr(x: Settings, cidr: string, isIp: string -> bool)
    requires 0 < |cidr| < CIDR_LEN
    ensures TakeWords(x, Field("LOCAL_CIDR", cidr), isIp) == Some(x.(profile := x.profile.(localCidr := cidr)))
  {
    var t := "LOCAL_CIDR" + "=" + cidr;
    ValueOf("LOCAL_CIDR", cidr);
    NotKey(t, "CLIENT_ID", 0);
    TakeOne(x, t, isIp);
  }

  lemma TakeGateway(x: Settings, ip: string, isIp: string -> bool)
    requires 0 < |ip| < IP_LEN
    ensures TakeWords(x, Field("GATEWAY_IP", ip), isIp) == Some(x.(profile := x.profile.(gatewayIp := ip)))
  {
    var t := "GATEWAY_IP" + "=" + ip;
    ValueOf("GATEWAY_IP", ip);
    NotKey(t, "CLIENT_ID", 0);
    NotKey(t, "LOCAL_CIDR", 0);
    TakeOne(x, t, isIp);
  }

  lemma TakeRoute(x: Settings, route: string, isIp: string -> bool)
    requires |x.profile.routes| < MAX_ROUTES && RouteOk(route, isIp)
    ensures TakeWord(x, "ROUTE_CIDR=" + route, isIp) == Some(WithRoutes(x, x.profile.routes + [route]))
  {
    var t := "ROUTE_CIDR=" + route;
    ValueOf("ROUTE_CIDR", route);
    assert "ROUTE_CIDR" + "=" + route == t;
    NotKey(t, "CLIENT_ID", 0);
    NotKey(t, "LOCAL_CIDR", 0);
    NotKey(t, "GATEWAY_IP", 0);
  }

  function WithRoutes(x: Settings, routes: seq<string>): Settings {
    x.(profile := x.profile.(routes := routes))
  }

  lemma NoRoutes(x: Settings, isIp: string -> bool)
    ensures TakeWords(x, RouteFields([]), isIp) == Some(WithRoutes(x, x.profile.routes + []))
  {
    assert x.profile.routes + [] == x.profile.routes;
  }

  lemma RouteFieldsCons(routes: seq<string>)
    requires routes != []
    ensures RouteFields(routes) == ["ROUTE_CIDR=" + routes[0]] + RouteFields(routes[1..])
  {
    var a, b := RouteFields(routes), ["ROUTE_CIDR=" + routes[0]] + RouteFields(routes[1..]);
    assert |a| == |b| && forall i | 0 <= i < |a| :: a[i] == b[i];
  }

  lemma TakeCons(x: Settings, y: Settings, w: string, ws: seq<string>, isIp: string -> bool)
    requires TakeWord(x, w, isIp) == Some(y)
    ensures TakeWords(x, [w] + ws, isIp) == TakeWords(y, ws, isIp)
  {
    assert ([w] + ws)[1..] == ws;
  }

  lemma {:induction false} TakeRoutes(x: Settings, routes: seq<string>, isIp: string -> bool)
    requires |x.profile.routes| + |routes| <= MAX_ROUTES && forall i | 0 <= i < |routes| :: RouteOk(routes[i], isIp)
    ensures TakeWords(x, RouteFields(routes), isIp) == Some(WithRoutes(x, x.profile.routes + routes))
    decreases |routes|
  {
    hide TakeWord, RouteOk, RouteFields;
    if routes == [] {
      NoRoutes(x, isIp);
    } else {
      hide TakeWords;
      TakeRoute(x, routes[0], isIp);
      var y := WithRoutes(x, x.profile.routes + [routes[0]]);
      TakeRoutes(y, routes[1..], isIp);
      TakeCons(x, y, "ROUTE_CIDR=" + routes[0], RouteFields(routes[1..]), isIp);
      RouteFieldsCons(routes);
      assert (x.profile.routes + [routes[0]]) + routes[1..] == x.profile.routes + routes;
    }
  }

  lemma TakeConfig(x: Settings, clientId: string, p: Profile, isIp: string -> bool)
    requires ValidFields(clientId, p, isIp) && x.profile == EMPTY_PROFILE
    ensures TakeWords(x, ConfigWords(clientId, p)[2..], isIp)
         == Some(Settings(p, if clientId != "" then clientId else x.clientId))
  {
    hide TakeWord, TakeWords, Field, RouteFields, Number, Decimal;
    var ver := ["VER=" + Decimal(PROTO_VER)];
    TakeOne(x, ver[0], isIp);
    TakeVer(x, isIp);
    var w1 := ver + Field("CLIENT_ID", clientId);
    TakeAppend(x, ver, Field("CLIENT_ID", clientId), isIp);
    TakeId(x, clientId, isIp);
    var x1 := if clientId == "" then x else x.(clientId := clientId);
    var w2 := w1 + Field("MTU", MtuText(p.mtu));
    TakeAppend(x, w1, Field("MTU", MtuText(p.mtu)), isIp);
    TakeMtu(x1, p.mtu, isIp);
    var x2 := x1.(profile := EMPTY_PROFILE.(mtu := p.mtu));
    var w3 := w2 + Field("LOCAL_CIDR", p.localCidr);
    TakeAppend(x, w2, Field("LOCAL_CIDR", p.localCidr), isIp);
    TakeCidr(x2, p.localCidr, isIp);
    var x3 := x2.(profile := x2.profile.(localCidr := p.localCidr));
    var w4 := w3 + Field("GATEWAY_IP", p.gatewayIp);
    TakeAppend(x, w3, Field("GATEWAY_IP", p.gatewayIp), isIp);
    TakeGateway(x3, p.gatewayIp, isIp);
    var x4 := x3.(profile := x3.profile.(gatewayIp := p.gatewayIp));
    TakeAppend(x, w4, RouteFields(p.routes), isIp);
    TakeRoutes(x4, p.routes, isIp);
    assert [] + p.routes == p.routes;
    assert ConfigWords(clientId, p)[2..] == w4 + RouteFields(p.routes);
  }

  /** The client this CONFIG is for, or one without an ID. */
  predicate ForClient(own: Settings, clientId: string) {
    own.clientId == "" || clientId == "" || ServerTable.SameId(own.clientId, clientId)
  }

  lemma {:induction false} TakesPlain(x: Settings, ws: seq<string>, isIp: string -> bool)
    requires AreWords(ws) && Plain(x.clientId, x.profile)
    ensures var y := TakeWords(x, ws, isIp); y.Some? ==> Plain(y.value.clientId, y.value.profile)
    decreases |ws|
  {
    if ws != [] && TakeWord(x, ws[0], isIp).Some? {
      assert NoBlank(ws[0]);
      TakesPlain(TakeWord(x, ws[0], isIp).value, ws[1..], isIp);
    }
  }

  lemma ConfigWordsAreWords(clientId: string, p: Profile)
    requires Plain(clientId, p)
    ensures AreWords(ConfigWords(clientId, p))
  {
    assert AreWords(["CAMEX", "CONFIG", "VER=" + Decimal(PROTO_VER)]);
    FieldIsWord("CLIENT_ID", clientId);
    FieldIsWord("MTU", MtuText(p.mtu));
    FieldIsWord("LOCAL_CIDR", p.localCidr);
    FieldIsWord("GATEWAY_IP", p.gatewayIp);
    forall i | 0 <= i < |p.routes|
      ensures NoBlank(RouteFields(p.routes)[i])
    {
      assert NoBlank("ROUTE_CIDR=") && NoBlank(p.routes[i]);
    }
  }

  lemma FieldIsWord(key: string, value: string)
    requires NoBlank(key) && NoBlank(value)
    ensures AreWords(Field(key, value))
  {
  }

  /** Parsing a built CONFIG of valid fields gives back address, gateway, MTU
      and routes in order, and the ID, at every client it is for, exactly if
      no field has a blank in it. The server's checks let one through: after
      the slash of an address or a route, strtol skips it. */
  lemma ConfigRoundTrip(clientId: string, p: Profile, isIp: string -> bool)
    requires ValidFields(clientId, p, isIp)
    ensures (forall own | ForClient(own, clientId) ::
               ParsedConfig(own, Words(Line(ConfigWords(clientId, p))), isIp)
               == Some(Applied(own, Settings(p, clientId))))
            <==> Plain(clientId, p)
  {
    var words := Words(Line(ConfigWords(clientId, p)));
    WordsAreWords(Line(ConfigWords(clientId, p)));
    if Plain(clientId, p) {
      ConfigWordsAreWords(clientId, p);
      WordsOfJoined(ConfigWords(clientId, p));
      assert words == ConfigWords(clientId, p);
      forall own | ForClient(own, clientId)
        ensures ParsedConfig(own, words, isIp) == Some(Applied(own, Settings(p, clientId)))
      {
        TakeConfig(Settings(EMPTY_PROFILE, own.clientId), clientId, p, isIp);
      }
    } else {
      var own := Settings(EMPTY_PROFILE, "");
      assert ForClient(own, clientId);
      if ParsedConfig(own, words, isIp) == Some(Applied(own, Settings(p, clientId))) {
        TakesPlain(own, words[2..], isIp);
      }
    }
  }

  /** Such a route. */
  lemma BlankRouteIsValid(isIp: string -> bool)
    requires isIp("10.0.0.0")
    ensures RouteOk("10.0.0.0" + "/" + " 8", isIp) && !NoBlank("10.0.0.0" + "/" + " 8")
  {
    var s := "10.0.0.0" + "/" + " 8";
    SlashIs("10.0.0.0", " 8");
    assert s[..8] == "10.0.0.0" && s[9..] == " 8" && Blank(s[9]);
    assert " 8"[1..] == "8" && Digits("8") == Some(8);
    assert Number("8") == Some(8);
  }

  lemma {:induction false} SlashIs(a: string, b: string)
    requires forall i | 0 <= i < |a| :: a[i] != '/'
    ensures SlashAt(a + "/" + b) == |a|
  {
    if a == [] {
      assert (a + "/" + b)[0] == '/';
    } else {
      assert (a + "/" + b)[1..] == a[1..] + "/" + b;
      SlashIs(a[1..], b);
    }
  }
}
