/** Two readers of IPv6 text: the contracts package makes sixteen bytes, the network policy of
    the checkers one big number. Every well-formed text is the same address to both. */
module IpText {
  import opened Wrappers
  import opened Decimal
  import opened CidrMatch

  // ---------------------------------------------------------------- digits

  function HexDigit(c: char): Option<nat> {
    if '0' <= c <= '9' then Some(c as nat - '0' as nat)
    else if 'a' <= c <= 'f' then Some(c as nat - 'a' as nat + 10)
    else if 'A' <= c <= 'F' then Some(c as nat - 'A' as nat + 10)
    else None
  }

  predicate AllHex(s: string) {
    forall i :: 0 <= i < |s| ==> HexDigit(s[i]).Some?
  }

  function HexValue(s: string): nat
    requires AllHex(s)
  {
    if s == "" then 0 else HexValue(s[..|s| - 1]) * 16 + HexDigit(s[|s| - 1]).value
  }

  function HexChar(d: nat): (c: char)
    requires d < 16
    ensures HexDigit(c) == Some(d) && c != ':' && c != '.' && Lower(c) == c
  {
    if d < 10 then (d + '0' as nat) as char else (d - 10 + 'a' as nat) as char
  }

  /** `toString(16)`. */
  function HexText(n: nat): (s: string)
    ensures s != "" && AllHex(s) && HexValue(s) == n
    ensures n < 0x10000 ==> |s| <= 4
  {
    HexTextFacts(n);
    HexDigits(n)
  }

  function HexDigits(n: nat): (s: string)
    ensures s != ""
  {
    if n < 16 then [HexChar(n)] else HexDigits(n / 16) + [HexChar(n % 16)]
  }

  lemma {:induction false} HexTextFacts(n: nat)
    ensures AllHex(HexDigits(n)) && HexValue(HexDigits(n)) == n
    ensures n < 0x10000 ==> |HexDigits(n)| <= 4
    ensures n < 0x1000 ==> |HexDigits(n)| <= 3
    ensures n < 0x100 ==> |HexDigits(n)| <= 2
    ensures n < 0x10 ==> |HexDigits(n)| <= 1
  {
    if n < 16 {
      assert HexDigits(n)[..0] == "";
    } else {
      HexTextFacts(n / 16);
      var s := HexDigits(n);
      assert s[..|s| - 1] == HexDigits(n / 16);
    }
  }

  // ---------------------------------------------------------------- splitting

  predicate Has(s: string, c: char) {
    exists i :: 0 <= i < |s| && s[i] == c
  }

  /** One past the last `c`, or zero. */
  function AfterLast(s: string, c: char): (k: nat)
    ensures k <= |s| && (k > 0 ==> s[k - 1] == c) && (forall i :: k <= i < |s| ==> s[i] != c)
  {
    if s == "" || s[|s| - 1] == c then |s| else AfterLast(s[..|s| - 1], c)
  }

  function Split(s: string, c: char): (parts: seq<string>)
    ensures parts != []
    decreases |s|
  {
    var k := AfterLast(s, c);
    if k == 0 then [s] else Split(s[..k - 1], c) + [s[k..]]
  }

  function Join(parts: seq<string>, c: char): string {
    if parts == [] then ""
    else if |parts| == 1 then parts[0]
    else Join(parts[..|parts| - 1], c) + [c] + parts[|parts| - 1]
  }

  /** Position of the first double colon at or after `from`, or the length. */
  function DoubleFrom(s: string, from: nat): (k: nat)
    requires from <= |s|
    ensures from <= k <= |s| && (forall i :: from <= i < k && i + 1 < |s| ==> !(s[i] == ':' && s[i + 1] == ':'))
    ensures k < |s| ==> k + 1 < |s| && s[k] == ':' && s[k + 1] == ':'
    decreases |s| - from
  {
    if from + 1 >= |s| then |s|
    else if s[from] == ':' && s[from + 1] == ':' then from
    else DoubleFrom(s, from + 1)
  }

  function Double(s: string): (k: nat)
    ensures k <= |s| && (k < |s| ==> k + 2 <= |s|)
  {
    DoubleFrom(s, 0)
  }

  /** `split("::")` and then `split(":")`: the groups before and after the gap. */
  datatype Halves = Halves(left: seq<string>, gap: bool, right: seq<string>)

  function HalvesOf(s: string): Halves {
    var k := Double(s);
    if k == |s| then Halves(GroupsOf(s), false, [])
    else
      var rest := s[k + 2..];
      Halves(GroupsOf(s[..k]), true, GroupsOf(rest[..Double(rest)]))
  }

  function GroupsOf(s: string): seq<string> {
    if s == "" then [] else Split(s, ':')
  }

  function Repeat<T>(x: T, n: int): (s: seq<T>)
    ensures |s| == if n > 0 then n else 0
    ensures forall i :: 0 <= i < |s| ==> s[i] == x
  {
    if n <= 0 then [] else Repeat(x, n - 1) + [x]
  }

  /** The eight groups of a text, or fewer or more when it is malformed. */
  function Expand(left: seq<string>, gap: bool, right: seq<string>): seq<string> {
    if gap then left + Repeat("0", 8 - |left| - |right|) + right else left
  }

  // ---------------------------------------------------------------- the contracts reader

  /** Each octet text is plain digits; other spellings a number conversion accepts are not
      octets here. */
  function Octet(s: string): Option<nat> {
    if AllDigits(s) && DecimalValue(s) <= 255 then Some(DecimalValue(s)) else None
  }

  function Octets(s: string): Option<seq<nat>> {
    var parts := Split(s, '.');
    if |parts| == 4 && forall i :: 0 <= i < 4 ==> Octet(parts[i]).Some? then
      Some([Octet(parts[0]).value, Octet(parts[1]).value, Octet(parts[2]).value, Octet(parts[3]).value])
    else None
  }

  function ToByte(n: nat): (b: bv8)
    requires n < 256
    ensures b as nat == n
  {
    if n == 0 then 0
    else
      Increment(ToByte(n - 1));
      ToByte(n - 1) + 1
  }

  lemma Increment(b: bv8)
    requires b < 255
    ensures (b + 1) as nat == b as nat + 1
  {
  }

  /** `parseInt(group, 16)` on hexadecimal text. */
  function GroupBytes(group: string): Bytes {
    var value := if AllHex(group) then HexValue(group) else 0;
    [ToByte(value / 256 % 256), ToByte(value % 256)]
  }

  function Flatten(groups: seq<string>): Bytes {
    if groups == [] then [] else Flatten(groups[..|groups| - 1]) + GroupBytes(groups[|groups| - 1])
  }

  function HexBytes(s: string): Option<Bytes> {
    var h := HalvesOf(s);
    var groups := Expand(h.left, h.gap, h.right);
    if |groups| == 8 then Some(Flatten(groups)) else None
  }

  function OctetBytes(o: seq<nat>): Bytes
    requires |o| == 4 && forall i :: 0 <= i < 4 ==> o[i] <= 255
  {
    [ToByte(o[0]), ToByte(o[1]), ToByte(o[2]), ToByte(o[3])]
  }

  /** The source's `ipBytes`; a dotted tail is first rewritten as two groups. */
  function IpBytes(address: string): Option<Bytes> {
    if Has(address, '.') then
      var k := AfterLast(address, ':');
      var octets := Octets(address[k..]);
      if octets.None? then None
      else if k == 0 then Some(OctetBytes(octets.value))
      else
        var plain := address[..k] + DotsAsHex(octets.value);
        if Has(plain, '.') then None else HexBytes(plain)
    else HexBytes(address)
  }

  function DotsAsHex(o: seq<nat>): string
    requires |o| == 4
  {
    HexText(o[0] * 256 + o[1]) + ":" + HexText(o[2] * 256 + o[3])
  }

  // ---------------------------------------------------------------- the checkers reader

  function Lower(c: char): char {
    if 'A' <= c <= 'Z' then (c as nat + 32) as char else c
  }

  function LowerCase(s: string): (t: string)
    ensures |t| == |s| && forall i :: 0 <= i < |s| ==> t[i] == Lower(s[i])
  {
    seq(|s|, i requires 0 <= i < |s| => Lower(s[i]))
  }

  function BeforeZone(s: string): (t: string)
    ensures !Has(s, '%') ==> t == s
  {
    if s == "" || s[0] == '%' then "" else [s[0]] + BeforeZone(s[1..])
  }

  /** A dotted part becomes two hexadecimal parts, unchecked. */
  function ExpandPart(part: string): seq<string> {
    if Has(part, '.') then
      var o := Split(part, '.');
      [HexText(Loose(o, 0) * 256 + Loose(o, 1)), HexText(Loose(o, 2) * 256 + Loose(o, 3))]
    else [part]
  }

  function Loose(o: seq<string>, i: nat): nat {
    if i < |o| && AllDigits(o[i]) then DecimalValue(o[i]) else 0
  }

  function ExpandIpv4(parts: seq<string>): seq<string> {
    if parts == [] then [] else ExpandIpv4(parts[..|parts| - 1]) + ExpandPart(parts[|parts| - 1])
  }

  function Reduce(parts: seq<string>): Option<nat> {
    if parts == [] then Some(0)
    else
      var rest, last := Reduce(parts[..|parts| - 1]), parts[|parts| - 1];
      if rest.None? || !AllHex(last) then None else Some(rest.value * 65536 + HexValue(last))
  }

  function NormalizeIpv6(address: string): Option<nat> {
    var h := HalvesOf(LowerCase(BeforeZone(address)));
    var parts := Expand(ExpandIpv4(h.left), h.gap, ExpandIpv4(h.right));
    if |parts| == 8 then Reduce(parts) else None
  }

  // ---------------------------------------------------------------- well-formed text

  /** A piece between colons: one group, or the dotted quad of section 2.2 of RFC 4291. */
  datatype Piece = Hex(text: string) | Dots(octets: seq<string>)

  /** The address as written: pieces before and after the optional gap. */
  datatype Written = Written(left: seq<Piece>, gap: bool, right: seq<Piece>)

  predicate GoodPiece(p: Piece) {
    match p
    case Hex(text) => 1 <= |text| <= 4 && AllHex(text)
    case Dots(octets) => |octets| == 4 && forall i :: 0 <= i < 4 ==> GoodOctet(octets[i])
  }

  predicate GoodOctet(s: string) {
    1 <= |s| <= 3 && AllDigits(s) && DecimalValue(s) <= 255
  }

  function Width(ps: seq<Piece>): nat {
    if ps == [] then 0 else Width(ps[..|ps| - 1]) + if ps[|ps| - 1].Dots? then 2 else 1
  }

  /** Only the last piece may be dotted. */
  predicate HexBut(ps: seq<Piece>, tailMayBeDots: bool) {
    forall i :: 0 <= i < |ps| && ps[i].Dots? ==> tailMayBeDots && i == |ps| - 1
  }

  predicate WellFormed(w: Written) {
    && (forall i :: 0 <= i < |w.left| ==> GoodPiece(w.left[i]))
    && (forall i :: 0 <= i < |w.right| ==> GoodPiece(w.right[i]))
    && HexBut(w.left, !w.gap) && HexBut(w.right, true)
    && (if w.gap then Width(w.left) + Width(w.right) <= 7 else w.right == [] && Width(w.left) == 8)
  }

  function PieceText(p: Piece): string {
    match p
    case Hex(text) => text
    case Dots(octets) => Join(octets, '.')
  }

  function Texts(ps: seq<Piece>): (t: seq<string>)
    ensures |t| == |ps|
  {
    seq(|ps|, i requires 0 <= i < |ps| => PieceText(ps[i]))
  }

  function Text(w: Written): string {
    Join(Texts(w.left), ':') + (if w.gap then "::" else "") + Join(Texts(w.right), ':')
  }

  /** The 16-bit groups a piece stands for. */
  function PieceGroups(p: Piece): seq<nat>
    requires GoodPiece(p)
  {
    match p
    case Hex(text) => [HexValue(text)]
    case Dots(o) =>
      [DecimalValue(o[0]) * 256 + DecimalValue(o[1]), DecimalValue(o[2]) * 256 + DecimalValue(o[3])]
  }

  function Groups(ps: seq<Piece>): (g: seq<nat>)
    requires forall i :: 0 <= i < |ps| ==> GoodPiece(ps[i])
    ensures |g| == Width(ps)
  {
    if ps == [] then [] else Groups(ps[..|ps| - 1]) + PieceGroups(ps[|ps| - 1])
  }

  function Number(groups: seq<nat>): nat {
    if groups == [] then 0 else Number(groups[..|groups| - 1]) * 65536 + groups[|groups| - 1]
  }

  /** The 128-bit number the address denotes. */
  function Denotes(w: Written): nat
    requires WellFormed(w)
  {
    Number(Groups(w.left) + Repeat(0, 8 - Width(w.left) - Width(w.right)) + Groups(w.right))
  }
}
