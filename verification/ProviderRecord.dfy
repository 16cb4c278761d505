/**
 The signed provider record and the scanner that finds the signed bytes again in the request body.
 */
module ProviderRecord {
  import opened Wrappers

  // ---- JSON text ----

  const HEX := "0123456789abcdef"

  /** One character as JSON.stringify writes it inside a string. */
  function EscapeChar(c: char): string {
    if c == '\"' then "\\\""
    else if c == '\\' then "\\\\"
    else if c as int == 8 then "\\b"
    else if c as int == 9 then "\\t"
    else if c as int == 10 then "\\n"
    else if c as int == 12 then "\\f"
    else if c as int == 13 then "\\r"
    else if c as int < 32 then "\\u00" + [HEX[c as int / 16], HEX[c as int % 16]]
    else [c]
  }

  function Escape(s: string): string {
    if s == [] then [] else EscapeChar(s[0]) + Escape(s[1..])
  }

  function Quoted(s: string): string {
    "\"" + Escape(s) + "\""
  }

  function Listed(items: seq<string>): string {
    if items == [] then ""
    else if |items| == 1 then Quoted(items[0])
    else Quoted(items[0]) + "," + Listed(items[1..])
  }

  function Digits(n: nat): string {
    if n < 10 then [HEX[n]] else Digits(n / 10) + [HEX[n % 10]]
  }

  function NumberText(n: int): string {
    if n < 0 then "-" + Digits(-n) else Digits(n)
  }

  // ---- read back ----

  /** The characters a backslash stands before, and what they stand for (section 7 of RFC 8259). */
  function Meant(c: char): Option<char> {
    if c == '\"' || c == '\\' || c == '/' then Some(c)
    else if c == 'b' then Some(8 as char)
    else if c == 't' then Some(9 as char)
    else if c == 'n' then Some(10 as char)
    else if c == 'f' then Some(12 as char)
    else if c == 'r' then Some(13 as char)
    else None
  }

  function HexValue(c: char): Option<nat> {
    if '0' <= c <= '9' then Some(c as int - '0' as int)
    else if 'a' <= c <= 'f' then Some(c as int - 'a' as int + 10)
    else if 'A' <= c <= 'F' then Some(c as int - 'A' as int + 10)
    else None
  }

  /** A `\u00xy`. */
  function Coded(s: string): Option<char> {
    if |s| < 6 || s[2] != '0' || s[3] != '0' || HexValue(s[4]).None? || HexValue(s[5]).None? then None
    else Some((HexValue(s[4]).value * 16 + HexValue(s[5]).value) as char)
  }

  function Before(c: char, rest: Option<string>): Option<string> {
    if rest.Some? then Some([c] + rest.value) else None
  }

  /** What the inside of a JSON string says, with no `\u` beyond the first 256 characters. */
  function ReadBack(s: string): Option<string>
    decreases |s|
  {
    if s == [] then Some([])
    else if s[0] != '\\' then if s[0] == '\"' || s[0] as int < 32 then None else Before(s[0], ReadBack(s[1..]))
    else if |s| < 2 then None
    else if s[1] == 'u' then if Coded(s).None? then None else Before(Coded(s).value, ReadBack(s[6..]))
    else if Meant(s[1]).None? then None
    else Before(Meant(s[1]).value, ReadBack(s[2..]))
  }

  lemma HexReadsBack(n: nat)
    requires n < 16
    ensures HexValue(HEX[n]) == Some(n)
  {
  }

  lemma CharReadsBack(c: char, rest: string)
    ensures ReadBack(EscapeChar(c) + rest) == Before(c, ReadBack(rest))
  {
    var e := EscapeChar(c);
    var s := e + rest;
    assert s[|e|..] == rest;
    if |e| == 6 {
      HexReadsBack(c as int / 16);
      HexReadsBack(c as int % 16);
      assert c as int == c as int / 16 * 16 + c as int % 16;
      assert s[4] == e[4] && s[5] == e[5];
    }
  }

  /** Every string reads back as itself. */
  lemma {:induction false} EscapedReadsBack(s: string)
    ensures ReadBack(Escape(s)) == Some(s)
  {
    if s != [] {
      EscapedReadsBack(s[1..]);
      CharReadsBack(s[0], Escape(s[1..]));
      OneMoreReadBack(s[0], EscapeChar(s[0]), Escape(s[1..]), s[1..]);
      assert s == [s[0]] + s[1..];
    }
  }

  lemma OneMoreReadBack(c: char, e: string, rest: string, s: string)
    requires ReadBack(e + rest) == Before(c, ReadBack(rest)) && ReadBack(rest) == Some(s)
    ensures ReadBack(e + rest) == Some([c] + s)
  {
  }

  /** What decimal digits say. */
  function Decimal(s: string): Option<nat> {
    if s == [] then Some(0)
    else
      var most, last := Decimal(s[..|s| - 1]), s[|s| - 1];
      if most.None? || !('0' <= last <= '9') then None else Some(most.value * 10 + (last as int - '0' as int))
  }

  lemma {:induction false} DigitsReadBack(n: nat)
    ensures Decimal(Digits(n)) == Some(n) && Digits(n) != []
    ensures n > 0 ==> Digits(n)[0] != '0'
  {
    var s := Digits(n);
    HexReadsBack(n % 10);
    if n < 10 {
      assert s[..0] == [];
    } else {
      DigitsReadBack(n / 10);
      assert s[..|s| - 1] == Digits(n / 10);
    }
  }

  // ---- the record ----

  datatype AnnounceRecord = AnnounceRecord(peerId: string, addrs: seq<string>, keys: seq<string>, timestamp: int)

  /** A member's name, between what ends the member before it and what opens its value. */
  function Member(before: string, name: string, after: string): string {
    before + ("\"" + name + "\"") + after
  }

  /** Between the payload's braces. */
  function PayloadFields(r: AnnounceRecord): string {
    Member("", "ID", ":") + Quoted(r.peerId) + Member(",", "Addrs", ":[") + Listed(r.addrs)
    + Member("],", "Keys", ":[") + Listed(r.keys) + Member("],", "Timestamp", ":") + NumberText(r.timestamp)
  }

  function Payload(r: AnnounceRecord): string {
    "{" + PayloadFields(r) + "}"
  }

  const BEFORE_SIGNATURE := "{\"Providers\":[{\"Schema\":\"peer\",\"Signature\":"
  const PAYLOAD_KEY := "\"Payload\":"

  function Body(signature: string, payload: string): string {
    BEFORE_SIGNATURE + Quoted(signature) + "," + PAYLOAD_KEY + payload + "}]}"
  }

  /** The payload is printed once; what is signed is what is spliced in. */
  function SignedProvidersBody(r: AnnounceRecord, sign: string -> string): string {
    Body(sign(Payload(r)), Payload(r))
  }

  lemma MemberText()
    ensures Member("", "ID", ":") == "\"ID\":" && Member(",", "Addrs", ":[") == ",\"Addrs\":["
    ensures Member("],", "Keys", ":[") == "],\"Keys\":[" && Member("],", "Timestamp", ":") == "],\"Timestamp\":"
  {
  }

  /** The payload's text, member by member. */
  lemma PayloadText(r: AnnounceRecord)
    ensures Payload(r) == "{" + ("\"ID\":" + Quoted(r.peerId) + ",\"Addrs\":[" + Listed(r.addrs) + "],\"Keys\":[" + Listed(r.keys)
                                 + "],\"Timestamp\":" + NumberText(r.timestamp)) + "}"
  {
    MemberText();
  }

  // ---- the scanner ----

  predicate StartsAt(body: string, i: nat, key: string) {
    i + |key| <= |body| && body[i..i + |key|] == key
  }

  /** The first place `key` occurs, from `i` on. */
  function IndexOf(body: string, key: string, i: nat): (at: Option<nat>)
    ensures at.Some? ==> i <= at.value && StartsAt(body, at.value, key)
    ensures forall k: nat :: i <= k && (at.Some? ==> k < at.value) ==> !StartsAt(body, k, key)
    decreases |body| - i
  {
    if i + |key| > |body| then None
    else if StartsAt(body, i, key) then Some(i)
    else IndexOf(body, key, i + 1)
  }

  predicate IsSpace(c: char) {
    var n := c as int;
    9 <= n <= 13 || n in {0x20, 0xa0, 0x1680, 0x2028, 0x2029, 0x202f, 0x205f, 0x3000, 0xfeff} || 0x2000 <= n <= 0x200a
  }

  function SkipSpace(body: string, i: nat): (r: nat)
    requires i <= |body|
    ensures i <= r <= |body| && (r < |body| ==> !IsSpace(body[r]))
    decreases |body| - i
  {
    if i < |body| && IsSpace(body[i]) then SkipSpace(body, i + 1) else i
  }

  datatype Mode = Outside | Inside | Escaped

  /** How far into `s` the brace that closes depth 1 is, one past it. */
  function ScanEnd(s: string, depth: int, mode: Mode): (end: Option<nat>)
    ensures end.Some? ==> 0 < end.value <= |s|
    decreases |s|
  {
    if s == [] then None
    else
      match mode
      case Escaped => Shift(ScanEnd(s[1..], depth, Inside), 1)
      case Inside =>
        Shift(ScanEnd(s[1..], depth, if s[0] == '\\' then Escaped else if s[0] == '\"' then Outside else Inside), 1)
      case Outside =>
        if s[0] == '\"' then Shift(ScanEnd(s[1..], depth, Inside), 1)
        else if s[0] == '{' then Shift(ScanEnd(s[1..], depth + 1, Outside), 1)
        else if s[0] == '}' then if depth == 1 then Some(1) else Shift(ScanEnd(s[1..], depth - 1, Outside), 1)
        else Shift(ScanEnd(s[1..], depth, Outside), 1)
  }

  function Shift(end: Option<nat>, n: nat): Option<nat> {
    if end.Some? then Some(end.value + n) else None
  }

  function RawPayload(body: string): Option<string> {
    var at := IndexOf(body, PAYLOAD_KEY, 0);
    if at.None? then None
    else
      var start := SkipSpace(body, at.value + |PAYLOAD_KEY|);
      if start == |body| || body[start] != '{' then None
      else
        var end := ScanEnd(body[start..], 0, Outside);
        if end.None? then None else Some(body[start..start + end.value])
  }

  // ---- scanning past JSON text ----

  /** Scanning past `seg` from outside any string comes out where it went in. */
  ghost predicate Passes(seg: string) {
    forall depth, rest :: 0 < depth ==> ScanEnd(seg + rest, depth, Outside) == Shift(ScanEnd(rest, depth, Outside), |seg|)
  }

  lemma PassesConcat(a: string, b: string)
    requires Passes(a) && Passes(b)
    ensures Passes(a + b)
  {
    forall depth, rest | 0 < depth
      ensures ScanEnd(a + b + rest, depth, Outside) == Shift(ScanEnd(rest, depth, Outside), |a + b|)
    {
      assert a + b + rest == a + (b + rest);
      assert ScanEnd(b + rest, depth, Outside) == Shift(ScanEnd(rest, depth, Outside), |b|);
    }
  }

  predicate Plain(s: string) {
    forall c <- s :: c != '\"' && c != '{' && c != '}'
  }

  lemma {:induction false} PlainPasses(s: string)
    requires Plain(s)
    ensures Passes(s)
  {
    if s == [] {
      forall rest ensures s + rest == rest {}
    } else {
      assert forall c <- s[1..] :: c in s;
      PlainPasses(s[1..]);
      forall depth, rest | 0 < depth
        ensures ScanEnd(s + rest, depth, Outside) == Shift(ScanEnd(rest, depth, Outside), |s|)
      {
        assert (s + rest)[1..] == s[1..] + rest;
        assert s[0] in s;
      }
    }
  }

  predicate Ordinary(s: string) {
    forall c <- s :: c != '\"' && c != '\\'
  }

  lemma {:induction false} OrdinaryStaysInside(s: string, depth: int, rest: string)
    requires Ordinary(s)
    ensures ScanEnd(s + rest, depth, Inside) == Shift(ScanEnd(rest, depth, Inside), |s|)
  {
    if s == [] {
      assert s + rest == rest;
    } else {
      assert (s + rest)[1..] == s[1..] + rest;
      assert s[0] in s && forall c <- s[1..] :: c in s;
      OrdinaryStaysInside(s[1..], depth, rest);
    }
  }

  /** A backslash takes the next character with it. */
  lemma EscapedStaysInside(c: char, more: string, depth: int, rest: string)
    requires Ordinary(more)
    ensures ScanEnd(['\\', c] + more + rest, depth, Inside) == Shift(ScanEnd(rest, depth, Inside), 2 + |more|)
  {
    var s := ['\\', c] + more + rest;
    assert s[0] == '\\' && s[1..] == [c] + (more + rest) && s[1..][1..] == more + rest;
    OrdinaryStaysInside(more, depth, rest);
  }

  lemma EscapeCharShape(c: char)
    ensures var e := EscapeChar(c);
            || (|e| == 1 && Ordinary(e))
            || (|e| >= 2 && e == ['\\', e[1]] + e[2..] && Ordinary(e[2..]))
  {
    var e := EscapeChar(c);
    if |e| > 2 {
      HexIsPlain(e[4]);
      HexIsPlain(e[5]);
      assert e[2..] == ['0', '0', e[4], e[5]];
    }
  }

  lemma EscapeCharStaysInside(c: char, depth: int, rest: string)
    ensures ScanEnd(EscapeChar(c) + rest, depth, Inside) == Shift(ScanEnd(rest, depth, Inside), |EscapeChar(c)|)
  {
    var e := EscapeChar(c);
    EscapeCharShape(c);
    if |e| == 1 {
      OrdinaryStaysInside(e, depth, rest);
    } else {
      EscapedStaysInside(e[1], e[2..], depth, rest);
    }
  }

  lemma HexIsPlain(c: char)
    requires c in HEX
    ensures c != '\"' && c != '\\' && c != '{' && c != '}'
  {
  }

  /** Scanning past `seg` inside a string stays inside it. */
  ghost predicate Keeps(seg: string) {
    forall depth, rest :: ScanEnd(seg + rest, depth, Inside) == Shift(ScanEnd(rest, depth, Inside), |seg|)
  }

  lemma KeepsConcat(a: string, b: string)
    requires Keeps(a) && Keeps(b)
    ensures Keeps(a + b)
  {
    forall depth, rest ensures ScanEnd(a + b + rest, depth, Inside) == Shift(ScanEnd(rest, depth, Inside), |a + b|) {
      assert a + b + rest == a + (b + rest);
      assert ScanEnd(b + rest, depth, Inside) == Shift(ScanEnd(rest, depth, Inside), |b|);
    }
  }

  lemma EscapeCharKeeps(c: char)
    ensures Keeps(EscapeChar(c))
  {
    forall depth, rest
      ensures ScanEnd(EscapeChar(c) + rest, depth, Inside) == Shift(ScanEnd(rest, depth, Inside), |EscapeChar(c)|)
    {
      EscapeCharStaysInside(c, depth, rest);
    }
  }

  lemma {:induction false} EscapeKeeps(s: string)
    ensures Keeps(Escape(s))
  {
    if s == [] {
      forall rest: string ensures Escape(s) + rest == rest {}
    } else {
      EscapeCharKeeps(s[0]);
      EscapeKeeps(s[1..]);
      KeepsConcat(EscapeChar(s[0]), Escape(s[1..]));
    }
  }

  lemma KeptPasses(inside: string)
    requires Keeps(inside)
    ensures Passes("\"" + inside + "\"")
  {
    var quoted := "\"" + inside + "\"";
    forall depth, rest | 0 < depth
      ensures ScanEnd(quoted + rest, depth, Outside) == Shift(ScanEnd(rest, depth, Outside), |quoted|)
    {
      assert (quoted + rest)[1..] == inside + ("\"" + rest);
      assert ("\"" + rest)[1..] == rest;
    }
  }

  lemma QuotedPasses(s: string)
    ensures Passes(Quoted(s))
  {
    EscapeKeeps(s);
    KeptPasses(Escape(s));
  }

  lemma {:induction false} ListedPasses(items: seq<string>)
    ensures Passes(Listed(items))
  {
    if items == [] {
      PlainPasses("");
    } else {
      QuotedPasses(items[0]);
      if |items| > 1 {
        PlainPasses(",");
        PassesConcat(Quoted(items[0]), ",");
        ListedPasses(items[1..]);
        PassesConcat(Quoted(items[0]) + ",", Listed(items[1..]));
      }
    }
  }

  lemma {:induction false} DigitsPlain(n: nat)
    ensures Plain(Digits(n))
  {
    HexIsPlain(HEX[n % 10]);
    if n >= 10 { DigitsPlain(n / 10); }
  }

  lemma NumberPasses(n: int)
    ensures Passes(NumberText(n))
  {
    DigitsPlain(if n < 0 then -n else n);
    PlainPasses(NumberText(n));
  }

  predicate Unescaped(s: string) {
    forall c <- s :: c != '\"' && c != '\\' && c as int >= 32
  }

  lemma {:induction false} EscapeIsIdentity(s: string)
    requires Unescaped(s)
    ensures Escape(s) == s
  {
    if s != [] {
      assert s[0] in s && forall c <- s[1..] :: c in s;
      EscapeIsIdentity(s[1..]);
    }
  }

  lemma MemberPasses(before: string, name: string, after: string)
    requires Plain(before) && Unescaped(name) && Plain(after)
    ensures Passes(Member(before, name, after))
  {
    EscapeIsIdentity(name);
    QuotedPasses(name);
    PlainPasses(before);
    PlainPasses(after);
    PassesConcat(before, Quoted(name));
    PassesConcat(before + Quoted(name), after);
  }

  lemma EightPass(a: string, b: string, c: string, d: string, e: string, f: string, g: string, h: string)
    requires Passes(a) && Passes(b) && Passes(c) && Passes(d) && Passes(e) && Passes(f) && Passes(g) && Passes(h)
    ensures Passes(a + b + c + d + e + f + g + h)
  {
    PassesConcat(a, b);
    PassesConcat(a + b, c);
    PassesConcat(a + b + c, d);
    PassesConcat(a + b + c + d, e);
    PassesConcat(a + b + c + d + e, f);
    PassesConcat(a + b + c + d + e + f, g);
    PassesConcat(a + b + c + d + e + f + g, h);
  }

  lemma IdPasses()
    ensures Passes(Member("", "ID", ":"))
  {
    MemberPasses("", "ID", ":");
  }

  lemma AddrsPasses()
    ensures Passes(Member(",", "Addrs", ":["))
  {
    MemberPasses(",", "Addrs", ":[");
  }

  lemma KeysPasses()
    ensures Passes(Member("],", "Keys", ":["))
  {
    MemberPasses("],", "Keys", ":[");
  }

  lemma TimestampPasses()
    ensures Passes(Member("],", "Timestamp", ":"))
  {
    MemberPasses("],", "Timestamp", ":");
  }

  lemma FieldsPass(r: AnnounceRecord)
    ensures Passes(PayloadFields(r))
  {
    IdPasses();
    AddrsPasses();
    KeysPasses();
    TimestampPasses();
    QuotedPasses(r.peerId);
    ListedPasses(r.addrs);
    ListedPasses(r.keys);
    NumberPasses(r.timestamp);
    EightPass(Member("", "ID", ":"), Quoted(r.peerId), Member(",", "Addrs", ":["), Listed(r.addrs),
              Member("],", "Keys", ":["), Listed(r.keys), Member("],", "Timestamp", ":"), NumberText(r.timestamp));
  }

  lemma BracedIsScanned(fields: string, rest: string)
    requires Passes(fields)
    ensures ScanEnd("{" + fields + "}" + rest, 0, Outside) == Some(|fields| + 2)
  {
    var tail := "}" + rest;
    assert ("{" + fields + "}" + rest)[1..] == fields + tail;
    assert ScanEnd(fields + tail, 1, Outside) == Shift(ScanEnd(tail, 1, Outside), |fields|);
  }

  lemma PayloadIsScanned(r: AnnounceRecord, rest: string)
    ensures ScanEnd(Payload(r) + rest, 0, Outside) == Some(|Payload(r)|)
  {
    FieldsPass(r);
    BracedIsScanned(PayloadFields(r), rest);
  }

  // ---- finding the payload ----

  /** Inside an escaped string a quote always follows a backslash. */
  lemma {:induction false} QuotesAreEscaped(s: string, i: nat)
    requires i < |Escape(s)| && Escape(s)[i] == '\"'
    ensures i > 0 && Escape(s)[i - 1] == '\\'
  {
    var e := EscapeChar(s[0]);
    if i < |e| {
      EscapedQuote(s[0], i);
    } else {
      QuotesAreEscaped(s[1..], i - |e|);
    }
  }

  lemma EscapedQuote(c: char, i: nat)
    requires i < |EscapeChar(c)| && EscapeChar(c)[i] == '\"'
    ensures i == 1 && EscapeChar(c)[0] == '\\'
  {
    HexIsPlain(HEX[c as int % 16]);
    HexIsPlain(HEX[if c as int < 32 then c as int / 16 else 0]);
  }

  /** What an occurrence of the payload key shows: a quote, no quote for seven more, then `d":`. */
  lemma KeyShape(body: string, i: nat)
    requires StartsAt(body, i, PAYLOAD_KEY)
    ensures i + 10 <= |body| && body[i] == '\"' && body[i + 1] == 'P' && body[i + 2] == 'a'
    ensures forall k :: i < k < i + 8 ==> body[k] != '\"'
    ensures body[i + 7] == 'd' && body[i + 8] == '\"' && body[i + 9] == ':'
  {
    var at := body[i..i + 10];
    assert at == PAYLOAD_KEY;
    forall k | 0 <= k < 10 ensures body[i + k] == PAYLOAD_KEY[k] {
      assert at[k] == body[i + k];
    }
    forall k | i < k < i + 8 ensures body[k] != '\"' {
      assert body[i + (k - i)] == PAYLOAD_KEY[k - i];
    }
  }

  lemma NotBeforeSignature(body: string, i: nat)
    requires BEFORE_SIGNATURE + "\"" <= body && i < |BEFORE_SIGNATURE|
    ensures !StartsAt(body, i, PAYLOAD_KEY)
  {
    if StartsAt(body, i, PAYLOAD_KEY) {
      KeyShape(body, i);
    }
  }

  predicate QuotesFollowBackslash(s: string) {
    forall i :: 0 <= i < |s| && s[i] == '\"' ==> i > 0 && s[i - 1] == '\\'
  }

  lemma EscapedQuotesFollow(s: string)
    ensures QuotesFollowBackslash(Escape(s))
  {
    forall i | 0 <= i < |Escape(s)| && Escape(s)[i] == '\"' ensures i > 0 && Escape(s)[i - 1] == '\\' {
      QuotesAreEscaped(s, i);
    }
  }

  /** Nor inside the signature's string, nor across its end. */
  lemma NotInSignature(body: string, from: nat, inside: string, i: nat)
    requires QuotesFollowBackslash(inside)
    requires from + |inside| + 2 < |body| && body[from + 1..from + 1 + |inside|] == inside
    requires body[from + 1 + |inside|] == '\"' && body[from + 2 + |inside|] == ','
    requires from <= i <= from + 1 + |inside|
    ensures !StartsAt(body, i, PAYLOAD_KEY)
  {
    forall m | from < m <= from + |inside| && body[m] == '\"' ensures body[m - 1] == '\\' {
      assert inside[m - from - 1] == body[from + 1..from + 1 + |inside|][m - from - 1] == body[m];
      assert inside[m - from - 2] == body[from + 1..from + 1 + |inside|][m - from - 2] == body[m - 1];
    }
    if StartsAt(body, i, PAYLOAD_KEY) {
      KeyShape(body, i);
    }
  }

  lemma BodyShape(before: string, inside: string, payload: string)
    ensures var body, n := before + ("\"" + inside + "\"") + "," + PAYLOAD_KEY + payload + "}]}", |before|;
            && before + "\"" <= body && n + |inside| + 13 <= |body|
            && body[n + 1..n + 1 + |inside|] == inside && body[n + 1 + |inside|] == '\"' && body[n + 2 + |inside|] == ','
            && StartsAt(body, n + 3 + |inside|, PAYLOAD_KEY)
            && body[n + 3 + |inside| + |PAYLOAD_KEY|..] == payload + "}]}"
  {
    var body := before + ("\"" + inside + "\"") + "," + PAYLOAD_KEY + payload + "}]}";
    assert body[|before| + 3 + |inside|..] == PAYLOAD_KEY + (payload + "}]}");
  }

  lemma NoEarlierKey(body: string, inside: string, k: nat)
    requires QuotesFollowBackslash(inside) && BEFORE_SIGNATURE + "\"" <= body
    requires var from := |BEFORE_SIGNATURE|;
             && from + |inside| + 2 < |body| && body[from + 1..from + 1 + |inside|] == inside
             && body[from + 1 + |inside|] == '\"' && body[from + 2 + |inside|] == ','
             && k < from + 3 + |inside|
    ensures !StartsAt(body, k, PAYLOAD_KEY)
  {
    var from := |BEFORE_SIGNATURE|;
    if k < from { NotBeforeSignature(body, k); }
    else if k <= from + 1 + |inside| { NotInSignature(body, from, inside, k); }
    else if StartsAt(body, k, PAYLOAD_KEY) { KeyShape(body, k); }
  }

  lemma FirstIndex(body: string, key: string, at: nat)
    requires StartsAt(body, at, key) && forall k: nat | k < at :: !StartsAt(body, k, key)
    ensures IndexOf(body, key, 0) == Some(at)
  {
  }

  /** The payload's key is the first one in the body, whatever the signature says. */
  lemma FirstKey(signature: string, payload: string)
    ensures IndexOf(Body(signature, payload), PAYLOAD_KEY, 0) == Some(|BEFORE_SIGNATURE| + |Quoted(signature)| + 1)
  {
    var body, inside := Body(signature, payload), Escape(signature);
    BodyShape(BEFORE_SIGNATURE, inside, payload);
    EscapedQuotesFollow(signature);
    var at := |BEFORE_SIGNATURE| + 3 + |inside|;
    forall k: nat | k < at ensures !StartsAt(body, k, PAYLOAD_KEY) {
      NoEarlierKey(body, inside, k);
    }
    FirstIndex(body, PAYLOAD_KEY, at);
  }

  /**
   Main result: print, then scan. For every record and every signature, the scanner finds in the body
   exactly the payload text that was signed, whatever quotes, backslashes, braces or keys the strings hold.
   */
  lemma ScannerFindsTheSignedBytes(r: AnnounceRecord, sign: string -> string)
    ensures RawPayload(SignedProvidersBody(r, sign)) == Some(Payload(r))
  {
    PayloadIsScanned(r, "}]}");
    PayloadIsFound(sign(Payload(r)), Payload(r));
  }

  /** Anything that opens a brace and scans to its own end is found whole. */
  lemma PayloadIsFound(signature: string, payload: string)
    requires payload != [] && payload[0] == '{' && ScanEnd(payload + "}]}", 0, Outside) == Some(|payload|)
    ensures RawPayload(Body(signature, payload)) == Some(payload)
  {
    var body := Body(signature, payload);
    FirstKey(signature, payload);
    BodyShape(BEFORE_SIGNATURE, Escape(signature), payload);
    FoundAt(body, |BEFORE_SIGNATURE| + |Quoted(signature)| + 1, payload, "}]}");
  }

  lemma FoundAt(body: string, at: nat, payload: string, rest: string)
    requires IndexOf(body, PAYLOAD_KEY, 0) == Some(at) && body[at + |PAYLOAD_KEY|..] == payload + rest
    requires payload != [] && payload[0] == '{' && ScanEnd(payload + rest, 0, Outside) == Some(|payload|)
    ensures RawPayload(body) == Some(payload)
  {
    var start := at + |PAYLOAD_KEY|;
    assert body[start] == body[start..][0] == '{';
    assert body[start..start + |payload|] == body[start..][..|payload|] == payload;
  }
}
