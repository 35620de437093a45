/** The two IPv6 readers and the two prefix tests agree. */
module IpAgreement {
  import opened Wrappers
  import opened Decimal
  import opened CidrMatch
  import opened IpText

  // ---------------------------------------------------------------- joining and splitting

  predicate Plain(parts: seq<string>, c: char) {
    forall i :: 0 <= i < |parts| ==> parts[i] != "" && !Has(parts[i], c)
  }

  lemma {:induction false} AfterLastAt(a: string, c: char, x: string)
    requires !Has(x, c)
    ensures AfterLast(a + [c] + x, c) == |a| + 1 && AfterLast(x, c) == 0
  {
    assert (a + [c] + x)[|a|] == c;
  }

  lemma {:induction false} SplitOne(a: string, c: char, x: string)
    requires !Has(x, c)
    ensures Split(a + [c] + x, c) == Split(a, c) + [x] && Split(x, c) == [x]
  {
    hide AfterLast;
    AfterLastAt(a, c, x);
    assert (a + [c] + x)[..|a|] == a && (a + [c] + x)[|a| + 1..] == x;
  }

  lemma {:induction false} SplitJoin(parts: seq<string>, c: char)
    requires parts != [] && Plain(parts, c)
    ensures Split(Join(parts, c), c) == parts
  {
    hide Split, Has;
    var front, last := parts[..|parts| - 1], parts[|parts| - 1];
    SplitOne(Join(front, c), c, last);
    assert parts == front + [last];
    if front != [] {
      SplitJoin(front, c);
    }
  }

  predicate NoDouble(s: string) {
    forall i :: 0 <= i && i + 1 < |s| ==> !(s[i] == ':' && s[i + 1] == ':')
  }

  /** A join of groups neither starts nor ends with a colon, nor contains two in a row. */
  lemma {:induction false} JoinShape(parts: seq<string>)
    requires Plain(parts, ':')
    ensures var s := Join(parts, ':');
            NoDouble(s) && (s == "" <==> parts == []) && (s != "" ==> s[0] != ':' && s[|s| - 1] != ':')
  {
    if |parts| == 1 {
      assert !Has(parts[0], ':');
    } else if parts != [] {
      var front, last := parts[..|parts| - 1], parts[|parts| - 1];
      JoinShape(front);
      assert !Has(last, ':') && front != [];
      var a := Join(front, ':');
      assert Join(parts, ':') == a + ":" + last;
    }
  }

  lemma DoubleAt(a: string, b: string)
    requires NoDouble(a) && (a != "" ==> a[|a| - 1] != ':')
    ensures Double(a) == |a| && Double(a + "::" + b) == |a|
  {
    var s := a + "::" + b;
    assert s[|a|] == ':' && s[|a| + 1] == ':';
    var k := Double(s);
    if k < |a| {
      assert s[k] == a[k];
    }
  }

  lemma {:induction false} GroupsOfJoin(parts: seq<string>)
    requires Plain(parts, ':')
    ensures GroupsOf(Join(parts, ':')) == parts
  {
    JoinShape(parts);
    if parts != [] {
      SplitJoin(parts, ':');
    }
  }

  function Gapped(l: seq<string>, gap: bool, r: seq<string>): string {
    Join(l, ':') + (if gap then "::" else "") + Join(r, ':')
  }

  /** Splitting a text of groups gives the groups back. */
  lemma HalvesOfGapped(l: seq<string>, gap: bool, r: seq<string>)
    requires Plain(l, ':') && Plain(r, ':') && (!gap ==> r == [])
    ensures HalvesOf(Gapped(l, gap, r)) == Halves(l, gap, r)
  {
    hide Split, DoubleFrom, Double;
    var s, a, b := Gapped(l, gap, r), Join(l, ':'), Join(r, ':');
    JoinShape(l);
    JoinShape(r);
    DoubleAt(a, b);
    GroupsOfJoin(l);
    GroupsOfJoin(r);
    if gap {
      DoubleAt(b, "");
      assert s[..|a|] == a && s[|a| + 2..] == b && b[..|b|] == b;
    } else {
      assert s == a;
    }
  }

  lemma {:induction false} JoinLacks(parts: seq<string>, separator: char, c: char)
    requires c != separator && forall i :: 0 <= i < |parts| ==> !Has(parts[i], c)
    ensures !Has(Join(parts, separator), c)
  {
    if |parts| > 1 {
      JoinLacks(parts[..|parts| - 1], separator, c);
      assert !Has(parts[|parts| - 1], c);
    }
  }

  lemma GappedLacks(l: seq<string>, gap: bool, r: seq<string>, c: char)
    requires c != ':' && (forall i :: 0 <= i < |l| ==> !Has(l[i], c)) && forall i :: 0 <= i < |r| ==> !Has(r[i], c)
    ensures !Has(Gapped(l, gap, r), c)
  {
    JoinLacks(l, ':', c);
    JoinLacks(r, ':', c);
  }

  // ---------------------------------------------------------------- groups as numbers

  predicate GoodGroup(s: string) {
    1 <= |s| <= 4 && AllHex(s)
  }

  predicate GoodGroups(groups: seq<string>) {
    forall i :: 0 <= i < |groups| ==> GoodGroup(groups[i])
  }

  function Values(groups: seq<string>): (v: seq<nat>)
    requires GoodGroups(groups)
    ensures |v| == |groups|
  {
    seq(|groups|, i requires 0 <= i < |groups| => HexValue(groups[i]))
  }

  function Power16(n: nat): nat {
    if n == 0 then 1 else 16 * Power16(n - 1)
  }

  lemma {:induction false} HexBelow(s: string)
    requires AllHex(s)
    ensures HexValue(s) < Power16(|s|)
  {
    if s != "" {
      HexBelow(s[..|s| - 1]);
    }
  }

  lemma {:induction false} GroupIsSmall(s: string)
    requires GoodGroup(s)
    ensures HexValue(s) < 65536
  {
    HexBelow(s);
    assert Power16(1) == 16 && Power16(2) == 256 && Power16(3) == 4096 && Power16(4) == 65536;
  }

  lemma {:induction false} Appended(b: Bytes, x: bv8)
    ensures ValueOf(b + [x]) == ValueOf(b) * 256 + x as nat
  {
    assert (b + [x])[..|b|] == b;
  }

  lemma {:induction false} PairValue(b: Bytes, v: nat)
    requires v < 65536
    ensures ValueOf(b + [ToByte(v / 256 % 256), ToByte(v % 256)]) == ValueOf(b) * 65536 + v
  {
    hide ValueOf, ToByte;
    var high, low := v / 256 % 256, v % 256;
    assert b + [ToByte(high), ToByte(low)] == (b + [ToByte(high)]) + [ToByte(low)];
    Appended(b, ToByte(high));
    Appended(b + [ToByte(high)], ToByte(low));
    assert v == high * 256 + low;
  }

  lemma {:induction false} FlattenValue(groups: seq<string>)
    requires GoodGroups(groups)
    ensures |Flatten(groups)| == 2 * |groups| && ValueOf(Flatten(groups)) == Number(Values(groups))
  {
    if groups != [] {
      var front, last := groups[..|groups| - 1], groups[|groups| - 1];
      FlattenValue(front);
      assert GoodGroup(last);
      GroupIsSmall(last);
      PairValue(Flatten(front), HexValue(last));
      assert Values(groups)[..|groups| - 1] == Values(front);
    }
  }

  lemma {:induction false} ReduceValue(groups: seq<string>)
    requires GoodGroups(groups)
    ensures Reduce(groups) == Some(Number(Values(groups)))
  {
    if groups != [] {
      ReduceValue(groups[..|groups| - 1]);
      assert GoodGroup(groups[|groups| - 1]);
      assert Values(groups)[..|groups| - 1] == Values(groups[..|groups| - 1]);
    }
  }

  /** Filling the gap with "0" groups fills it with zeros. */
  lemma {:induction false} ExpandValues(l: seq<string>, gap: bool, r: seq<string>)
    requires GoodGroups(l) && GoodGroups(r) && (if gap then |l| + |r| <= 8 else r == [] && |l| == 8)
    ensures var e := Expand(l, gap, r);
            GoodGroups(e) && |e| == 8 && Values(e) == Values(l) + Repeat(0, 8 - |l| - |r|) + Values(r)
  {
    ZeroGroup();
    var e := Expand(l, gap, r);
    if !gap {
      assert Values(e) == Values(l) + Repeat(0, 0) + Values(r);
    }
  }

  lemma ZeroGroup()
    ensures GoodGroup("0") && HexValue("0") == 0
  {
    assert "0"[..0] == "";
  }

  // ---------------------------------------------------------------- pieces

  lemma {:induction false} OctetsArePlain(o: seq<string>)
    requires |o| == 4 && forall i :: 0 <= i < 4 ==> GoodOctet(o[i])
    ensures Plain(o, '.') && Split(Join(o, '.'), '.') == o
    ensures !Has(Join(o, '.'), ':') && !Has(Join(o, '.'), '%') && Has(Join(o, '.'), '.') && Join(o, '.') != ""
    ensures LowerCase(Join(o, '.')) == Join(o, '.')
  {
    SplitJoin(o, '.');
    JoinLacks(o, '.', ':');
    JoinLacks(o, '.', '%');
    var front := Join(o[..3], '.');
    assert Join(o, '.') == front + "." + o[3];
    assert Join(o, '.')[|front|] == '.';
    hide Join, Split, LowerCase, Has, Plain;
    DotsAreLow(o);
  }

  lemma {:induction false} DotsAreLow(o: seq<string>)
    requires forall i :: 0 <= i < |o| ==> AllDigits(o[i])
    ensures forall i :: 0 <= i < |Join(o, '.')| ==> Lower(Join(o, '.')[i]) == Join(o, '.')[i]
  {
    if |o| > 1 {
      DotsAreLow(o[..|o| - 1]);
      assert AllDigits(o[|o| - 1]);
    }
  }

  lemma PieceIsPlain(p: Piece)
    requires GoodPiece(p)
    ensures PieceText(p) != "" && !Has(PieceText(p), ':') && !Has(PieceText(p), '%')
    ensures p.Hex? ==> !Has(PieceText(p), '.')
  {
    if p.Dots? {
      OctetsArePlain(p.octets);
    }
  }

  predicate GoodPieces(ps: seq<Piece>) {
    forall i :: 0 <= i < |ps| ==> GoodPiece(ps[i])
  }

  lemma TextsArePlain(ps: seq<Piece>)
    requires GoodPieces(ps)
    ensures Plain(Texts(ps), ':') && forall i :: 0 <= i < |ps| ==> !Has(Texts(ps)[i], '%')
    ensures (forall i :: 0 <= i < |ps| ==> ps[i].Hex?) ==> forall i :: 0 <= i < |ps| ==> !Has(Texts(ps)[i], '.')
  {
    forall i | 0 <= i < |ps|
      ensures Texts(ps)[i] != "" && !Has(Texts(ps)[i], ':') && !Has(Texts(ps)[i], '%')
          && (ps[i].Hex? ==> !Has(Texts(ps)[i], '.'))
    {
      PieceIsPlain(ps[i]);
    }
  }

  // ---------------------------------------------------------------- the contracts reader

  predicate AllPlainHex(w: Written) {
    (forall i :: 0 <= i < |w.left| ==> w.left[i].Hex?) && forall i :: 0 <= i < |w.right| ==> w.right[i].Hex?
  }

  lemma {:induction false} HexGroups(ps: seq<Piece>)
    requires GoodPieces(ps) && forall i :: 0 <= i < |ps| ==> ps[i].Hex?
    ensures GoodGroups(Texts(ps)) && Width(ps) == |ps| && Groups(ps) == Values(Texts(ps))
  {
    if ps != [] {
      var front := ps[..|ps| - 1];
      HexGroups(front);
      assert GoodPiece(ps[|ps| - 1]);
      assert Texts(front) == Texts(ps)[..|ps| - 1];
      assert Values(Texts(ps)) == Values(Texts(front)) + [HexValue(Texts(ps)[|ps| - 1])];
    }
  }

  lemma HexText16(w: Written)
    requires WellFormed(w) && AllPlainHex(w)
    ensures !Has(Text(w), '.')
    ensures HexBytes(Text(w)).Some? && |HexBytes(Text(w)).value| == 16 && ValueOf(HexBytes(Text(w)).value) == Denotes(w)
  {
    hide HalvesOf, Flatten, Groups, Number, ValueOf, Values, Join, Has;
    var l, r := Texts(w.left), Texts(w.right);
    TextsArePlain(w.left);
    TextsArePlain(w.right);
    assert Text(w) == Gapped(l, w.gap, r);
    GappedLacks(l, w.gap, r, '.');
    HalvesOfGapped(l, w.gap, r);
    HexGroups(w.left);
    HexGroups(w.right);
    ExpandValues(l, w.gap, r);
    FlattenValue(Expand(l, w.gap, r));
  }

  /** The last piece of the text, when it is dotted. */
  function Tail(w: Written): seq<Piece> {
    if w.gap then w.right else w.left
  }

  predicate EndsInDots(w: Written) {
    Tail(w) != [] && Tail(w)[|Tail(w)| - 1].Dots?
  }

  function AsHex(p: Piece): seq<Piece>
    requires GoodPiece(p) && p.Dots?
  {
    var o := p.octets;
    [Hex(HexText(DecimalValue(o[0]) * 256 + DecimalValue(o[1]))),
        Hex(HexText(DecimalValue(o[2]) * 256 + DecimalValue(o[3])))]
  }

  function Undotted(ps: seq<Piece>): seq<Piece>
    requires GoodPieces(ps) && ps != [] && ps[|ps| - 1].Dots?
  {
    ps[..|ps| - 1] + AsHex(ps[|ps| - 1])
  }

  function WithTail(w: Written, ps: seq<Piece>): Written {
    if w.gap then w.(right := ps) else w.(left := ps)
  }

  lemma {:induction false} GroupsOfTwo(ps: seq<Piece>, a: Piece, b: Piece)
    requires GoodPieces(ps) && GoodPiece(a) && GoodPiece(b) && a.Hex? && b.Hex?
    ensures var all := ps + [a, b];
            GoodPieces(all) && Width(all) == Width(ps) + 2
                && Groups(all) == Groups(ps) + [HexValue(a.text), HexValue(b.text)]
  {
    var all := ps + [a, b];
    assert all[..|ps| + 1] == ps + [a] && (ps + [a])[..|ps|] == ps;
    assert Groups(all) == Groups(ps) + [HexValue(a.text)] + [HexValue(b.text)];
  }

  /** Rewriting the dotted tail as two groups changes neither the width nor the number. */
  lemma {:induction false} UndottedIsSame(ps: seq<Piece>)
    requires GoodPieces(ps) && ps != [] && ps[|ps| - 1].Dots? && HexBut(ps, true)
    ensures var u := Undotted(ps);
            GoodPieces(u) && Width(u) == Width(ps) && Groups(u) == Groups(ps) && forall i :: 0 <= i < |u| ==> u[i].Hex?
  {
    var p := ps[|ps| - 1];
    assert GoodPiece(p);
    var h := AsHex(p);
    GroupsOfTwo(ps[..|ps| - 1], h[0], h[1]);
    assert h == [h[0], h[1]];
  }

  function Lead(parts: seq<string>): string {
    if parts == [] then "" else Join(parts, ':') + ":"
  }

  lemma {:induction false} JoinOne(parts: seq<string>, x: string)
    ensures Join(parts + [x], ':') == Lead(parts) + x
  {
    assert (parts + [x])[..|parts|] == parts;
  }

  lemma {:induction false} JoinTwo(parts: seq<string>, x: string, y: string)
    ensures Join(parts + [x, y], ':') == Lead(parts) + (x + ":" + y)
  {
    assert parts + [x, y] == (parts + [x]) + [y];
    JoinOne(parts, x);
    JoinOne(parts + [x], y);
  }

  /** The part of the text before its last piece. */
  function Head(w: Written): string {
    var front := Texts(if Tail(w) == [] then [] else Tail(w)[..|Tail(w)| - 1]);
    (if w.gap then Join(Texts(w.left), ':') + "::" else "") + Lead(front)
  }

  /** What precedes a dotted tail ends in a colon. */
  lemma HeadShape(w: Written)
    requires WellFormed(w) && EndsInDots(w)
    ensures Head(w) != "" && Head(w)[|Head(w)| - 1] == ':'
  {
    hide Join;
    var ps := Tail(w);
    if !w.gap {
      assert |ps| > 1 by {
        if |ps| == 1 {
          assert Width(ps[..0]) == 0;
        }
      }
    }
  }

  lemma TextByHead(w: Written)
    requires EndsInDots(w) && (w.gap || w.right == [])
    ensures Text(w) == Head(w) + PieceText(Tail(w)[|Tail(w)| - 1])
  {
    hide Join, PieceText;
    var ps := Tail(w);
    var front, last := Texts(ps[..|ps| - 1]), PieceText(ps[|ps| - 1]);
    assert Texts(ps) == front + [last];
    JoinOne(front, last);
    NothingToJoin();
  }

  lemma NothingToJoin()
    ensures Texts([]) == [] && Join([], ':') == ""
  {
  }

  lemma RewrittenText(w: Written)
    requires WellFormed(w) && EndsInDots(w)
    ensures var h := AsHex(Tail(w)[|Tail(w)| - 1]);
            Text(WithTail(w, Undotted(Tail(w)))) == Head(w) + (h[0].text + ":" + h[1].text)
  {
    hide Join, HexText, DecimalValue, GoodPiece, Width;
    var ps := Tail(w);
    var front, h := Texts(ps[..|ps| - 1]), AsHex(ps[|ps| - 1]);
    assert Texts(Undotted(ps)) == front + [h[0].text, h[1].text];
    JoinTwo(front, h[0].text, h[1].text);
    NothingToJoin();
  }

  predicate GoodOctets(o: seq<string>) {
    |o| == 4 && GoodOctet(o[0]) && GoodOctet(o[1]) && GoodOctet(o[2]) && GoodOctet(o[3])
  }

  lemma {:induction false} LoneOctets(o: seq<string>)
    requires GoodOctets(o)
    ensures Octets(Join(o, '.')) == Some([DecimalValue(o[0]), DecimalValue(o[1]), DecimalValue(o[2]),
        DecimalValue(o[3])])
  {
    hide Split, Join, DecimalValue;
    OctetsArePlain(o);
  }

  lemma {:induction false} HeadEnds(head: string, tail: string)
    requires head != "" && head[|head| - 1] == ':' && !Has(tail, ':')
    ensures AfterLast(head + tail, ':') == |head| && (head + tail)[..|head|] == head && (head + tail)[|head|..] == tail
  {
    hide AfterLast;
    var a := head[..|head| - 1];
    AfterLastAt(a, ':', tail);
    assert a + ":" + tail == head + tail;
  }

  /** Reading a text with a dotted tail is reading its rewriting. */
  lemma {:induction false} DottedRead(head: string, o: seq<string>)
    requires GoodOctets(o) && head != "" && head[|head| - 1] == ':'
    ensures var values := [DecimalValue(o[0]), DecimalValue(o[1]), DecimalValue(o[2]), DecimalValue(o[3])];
            var plain := head + DotsAsHex(values);
            IpBytes(head + Join(o, '.')) == if Has(plain, '.') then None else HexBytes(plain)
  {
    hide HexBytes, Octets, Join, AfterLast, DecimalValue, DotsAsHex, Has, GoodOctet;
    OctetsArePlain(o);
    LoneOctets(o);
    HeadEnds(head, Join(o, '.'));
    HasAfter(head, Join(o, '.'), '.');
  }

  lemma DottedBytes(w: Written)
    requires WellFormed(w) && EndsInDots(w)
    ensures IpBytes(Text(w)).Some? && |IpBytes(Text(w)).value| == 16 && ValueOf(IpBytes(Text(w)).value) == Denotes(w)
  {
    hide HexBytes, ValueOf, Text, IpBytes, Join, Head, Undotted, Denotes, WellFormed, Has, DecimalValue, HexText,
      AllPlainHex;
    DotsAreGood(w);
    var p, plain := Tail(w)[|Tail(w)| - 1], WithTail(w, Undotted(Tail(w)));
    HeadShape(w);
    TextByHead(w);
    RewrittenText(w);
    DottedRead(Head(w), p.octets);
    PlainIsSame(w);
    HexText16(plain);
  }

  lemma DotsAreGood(w: Written)
    requires WellFormed(w) && EndsInDots(w)
    ensures var p := Tail(w)[|Tail(w)| - 1];
            GoodPieces(Tail(w)) && GoodPiece(p) && GoodOctets(p.octets) && (w.gap || w.right == [])
  {
    hide GoodOctet, Width;
    assert GoodPiece(Tail(w)[|Tail(w)| - 1]);
  }

  lemma HasAfter(a: string, b: string, c: char)
    requires Has(b, c)
    ensures Has(a + b, c)
  {
    var i :| 0 <= i < |b| && b[i] == c;
    assert (a + b)[|a| + i] == c;
  }

  lemma PlainIsSame(w: Written)
    requires WellFormed(w) && EndsInDots(w)
    ensures var plain := WithTail(w, Undotted(Tail(w)));
            WellFormed(plain) && AllPlainHex(plain) && Denotes(plain) == Denotes(w)
  {
    hide Groups, Undotted, Number, Width, GoodPiece;
    UndottedIsSame(Tail(w));
  }

  lemma ContractsReaderIsRight(w: Written)
    requires WellFormed(w)
    ensures IpBytes(Text(w)).Some? && |IpBytes(Text(w)).value| == 16 && ValueOf(IpBytes(Text(w)).value) == Denotes(w)
  {
    hide HexBytes, ValueOf, Denotes, Text, Has;
    if EndsInDots(w) {
      DottedBytes(w);
    } else {
      HexText16(w);
    }
  }

  // ---------------------------------------------------------------- the checkers reader

  function LowerAll(parts: seq<string>): (t: seq<string>)
    ensures |t| == |parts|
  {
    seq(|parts|, i requires 0 <= i < |parts| => LowerCase(parts[i]))
  }

  lemma LowerJoins(a: string, b: string)
    ensures LowerCase(a + b) == LowerCase(a) + LowerCase(b)
  {
  }

  lemma {:induction false} LowerJoin(parts: seq<string>)
    ensures LowerCase(Join(parts, ':')) == Join(LowerAll(parts), ':')
  {
    if |parts| == 1 {
    } else if parts != [] {
      var front, last := parts[..|parts| - 1], parts[|parts| - 1];
      LowerJoin(front);
      LowerJoins(Join(front, ':') + ":", last);
      LowerJoins(Join(front, ':'), ":");
      assert LowerCase(":") == ":";
      assert LowerAll(parts)[..|parts| - 1] == LowerAll(front);
    }
  }

  lemma LowerGapped(l: seq<string>, gap: bool, r: seq<string>)
    ensures LowerCase(Gapped(l, gap, r)) == Gapped(LowerAll(l), gap, LowerAll(r))
  {
    var mid := if gap then "::" else "";
    LowerJoin(l);
    LowerJoin(r);
    LowerJoins(Join(l, ':') + mid, Join(r, ':'));
    LowerJoins(Join(l, ':'), mid);
    assert LowerCase(mid) == mid;
  }

  lemma LowerIsPlain(parts: seq<string>)
    requires Plain(parts, ':')
    ensures Plain(LowerAll(parts), ':')
  {
    forall i | 0 <= i < |parts| ensures LowerAll(parts)[i] != "" && !Has(LowerAll(parts)[i], ':') {
      assert !Has(parts[i], ':');
    }
  }

  lemma {:induction false} LowerHex(s: string)
    requires AllHex(s)
    ensures AllHex(LowerCase(s)) && HexValue(LowerCase(s)) == HexValue(s)
  {
    if s != "" {
      LowerHex(s[..|s| - 1]);
      assert LowerCase(s)[..|s| - 1] == LowerCase(s[..|s| - 1]);
    }
  }

  lemma {:induction false} ExpandedDots(o: seq<string>)
    requires GoodOctets(o)
    ensures ExpandPart(Join(o, '.'))
            == [HexText(DecimalValue(o[0]) * 256 + DecimalValue(o[1])),
                HexText(DecimalValue(o[2]) * 256 + DecimalValue(o[3]))]
  {
    hide Split, Join, DecimalValue, HexText, Has;
    OctetsArePlain(o);
  }

  /** One piece, lower-cased and expanded, is its groups. */
  lemma ExpandedPiece(p: Piece)
    requires GoodPiece(p)
    ensures var parts := ExpandPart(LowerCase(PieceText(p)));
            GoodGroups(parts) && Values(parts) == PieceGroups(p) && |parts| == if p.Dots? then 2 else 1
  {
    hide DecimalValue, HexValue, Split, Join, ExpandPart, HexText, Lower;
    match p
    case Hex(text) => ExpandedHex(text);
    case Dots(o) =>
      OctetsArePlain(o);
      ExpandedDots(o);
  }

  lemma {:induction false} ExpandedHex(text: string)
    requires GoodGroup(text)
    ensures ExpandPart(LowerCase(text)) == [LowerCase(text)] && GoodGroup(LowerCase(text))
    ensures HexValue(LowerCase(text)) == HexValue(text)
  {
    hide HexValue;
    LowerHex(text);
    assert !Has(LowerCase(text), '.');
  }

  lemma {:induction false} ExpandedOne(parts: seq<string>, x: string)
    ensures ExpandIpv4(parts + [x]) == ExpandIpv4(parts) + ExpandPart(x)
  {
    hide ExpandPart;
    assert (parts + [x])[..|parts|] == parts;
  }

  lemma ValuesJoin(a: seq<string>, b: seq<string>)
    requires GoodGroups(a) && GoodGroups(b)
    ensures GoodGroups(a + b) && Values(a + b) == Values(a) + Values(b)
  {
    hide GoodGroup, HexValue;
  }

  lemma LoweredTexts(ps: seq<Piece>, last: Piece)
    ensures LowerAll(Texts(ps + [last])) == LowerAll(Texts(ps)) + [LowerCase(PieceText(last))]
  {
    hide LowerCase, PieceText;
  }

  lemma NothingLowered()
    ensures LowerAll(Texts([])) == [] && Values([]) == []
  {
  }

  lemma {:induction false} ExpandedPieces(ps: seq<Piece>)
    requires GoodPieces(ps)
    ensures var parts := ExpandIpv4(LowerAll(Texts(ps)));
            GoodGroups(parts) && |parts| == Width(ps) && Values(parts) == Groups(ps)
  {
    hide ExpandPart, LowerCase, PieceText, PieceGroups, GoodPiece, GoodGroup, HexValue, LowerAll, Texts, Values;
    if ps != [] {
      var front, last := ps[..|ps| - 1], ps[|ps| - 1];
      ExpandedPieces(front);
      ExpandedPiece(last);
      assert ps == front + [last];
      LoweredTexts(front, last);
      ExpandedOne(LowerAll(Texts(front)), LowerCase(PieceText(last)));
      ValuesJoin(ExpandIpv4(LowerAll(Texts(front))), ExpandPart(LowerCase(PieceText(last))));
    } else {
      NothingLowered();
    }
  }

  lemma CheckersReaderIsRight(w: Written)
    requires WellFormed(w)
    ensures NormalizeIpv6(Text(w)) == Some(Denotes(w))
  {
    hide HalvesOf, Groups, Number, Values, Join, Has, LowerCase, ExpandIpv4, Reduce, BeforeZone, GoodPiece;
    var l, r := Texts(w.left), Texts(w.right);
    TextsArePlain(w.left);
    TextsArePlain(w.right);
    assert Text(w) == Gapped(l, w.gap, r);
    GappedLacks(l, w.gap, r, '%');
    LowerGapped(l, w.gap, r);
    LowerIsPlain(l);
    LowerIsPlain(r);
    HalvesOfGapped(LowerAll(l), w.gap, LowerAll(r));
    ExpandedPieces(w.left);
    ExpandedPieces(w.right);
    var a, b := ExpandIpv4(LowerAll(l)), ExpandIpv4(LowerAll(r));
    ExpandValues(a, w.gap, b);
    ReduceValue(Expand(a, w.gap, b));
  }

  // ---------------------------------------------------------------- main results

  /** Every well-formed IPv6 text is one 128-bit number, and both readers find it. */
  lemma ReadersAgree(w: Written)
    requires WellFormed(w)
    ensures IpBytes(Text(w)).Some? && |IpBytes(Text(w)).value| == 16
    ensures Some(ValueOf(IpBytes(Text(w)).value)) == NormalizeIpv6(Text(w)) == Some(Denotes(w))
  {
    hide WellFormed, Text, IpBytes, NormalizeIpv6, Denotes;
    ContractsReaderIsRight(w);
    CheckersReaderIsRight(w);
  }

  /** The contracts package's test of an address text against a network text and a prefix. */
  method ContainsText(network: string, prefix: nat, address: string) returns (inside: bool)
    requires IpBytes(network).Some? ==> prefix <= 8 * |IpBytes(network).value|
    ensures inside <==>
              var n, a := IpBytes(network), IpBytes(address);
              && n.Some? && a.Some? && |n.value| == |a.value|
              && HasPrefix(ValueOf(a.value), ValueOf(n.value), 8 * |n.value|, prefix)
  {
    var n, a := IpBytes(network), IpBytes(address);
    if n.None? || a.None? || |n.value| != |a.value| {
      return false;
    }
    inside := CidrContains(n.value, a.value, prefix);
  }

  /** On well-formed texts the byte-and-mask test is the shift test of the checkers, for every
      prefix length. */
  lemma PrefixTestsAgree(network: Written, prefix: nat, address: Written)
    requires WellFormed(network) && WellFormed(address) && prefix <= 128
    ensures var n, a := IpBytes(Text(network)), IpBytes(Text(address));
            var nn, na := NormalizeIpv6(Text(network)), NormalizeIpv6(Text(address));
            && n.Some? && a.Some? && |n.value| == |a.value| == 16 && nn.Some? && na.Some?
            && (HasPrefix(ValueOf(a.value), ValueOf(n.value), 8 * |n.value|, prefix)
                <==> HasPrefix(na.value, nn.value, 128, prefix))
  {
    hide WellFormed, Text, IpBytes, NormalizeIpv6, Denotes, HasPrefix;
    ReadersAgree(network);
    ReadersAgree(address);
  }
}
