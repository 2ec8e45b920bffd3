/** The quote text `toWhatsAppMessage` builds from the cart, before the
    percent-encoding for the link. */
module Message {
  import opened Text
  import opened CartEngine

  /** The greeting line of the quote; the pieces spell `"Hola, quisiera cotizar los
      siguientes productos:"` (`HeaderText`). */
  const Header: string := "Hola, quisiera" + " cotizar los" + " siguientes" + " productos:"

  /** One cart line: `• ${name} — ${size} (cód: ${code}) × ${qty}`. */
  function LineText(x: Line): string {
    "\U{2022} " + x.name + " \U{2014} " + x.size + " (c\U{00F3}d: " + x.code + ") \U{00D7} " + IntToString(x.qty)
  }

  function LineTexts(lines: seq<Line>): (r: seq<string>)
    ensures |r| == |lines|
  {
    seq(|lines|, i requires 0 <= i < |lines| => LineText(lines[i]))
  }

  /** The closing line; `fmt` stands for `toLocaleString("es-MX", { minimumFractionDigits: 2 })`. */
  function SubtotalText(lines: seq<Line>, fmt: int -> string): string {
    "Subtotal estimado: $" + fmt(Subtotal(lines)) + " MXN"
  }

  /** The body's lines: header, blank, one per cart line, blank, subtotal. */
  function MessageLines(lines: seq<Line>, fmt: int -> string): seq<string> {
    [Header, ""] + LineTexts(lines) + ["", SubtotalText(lines, fmt)]
  }

  /** `[header, "", ...lines, "", subtotal].join("\n")`. */
  function MessageBody(lines: seq<Line>, fmt: int -> string): string {
    Join(MessageLines(lines, fmt), "\n")
  }

  predicate OneLine(s: string) {
    '\n' !in s
  }

  predicate LineFieldsOneLine(x: Line) {
    OneLine(x.name) && OneLine(x.size) && OneLine(x.code)
  }

  lemma HeaderOneLine()
    ensures OneLine(Header)
  {
  }

  /** The four pieces spell the source's header. */
  lemma HeaderText()
    ensures Header == "Hola, quisiera cotizar los siguientes productos:"
  {
  }

  lemma LineTextOneLine(x: Line)
    requires LineFieldsOneLine(x)
    ensures OneLine(LineText(x))
  {
    IntToStringOneLine(x.qty);
    var q := IntToString(x.qty);
    assert LineText(x) == "\U{2022} " + x.name + " \U{2014} " + x.size + " (c\U{00F3}d: " + x.code + ") \U{00D7} " + q;
  }

  predicate AllOneLine(parts: seq<string>) {
    forall i :: 0 <= i < |parts| ==> OneLine(parts[i])
  }

  lemma AllOneLineAppend(a: seq<string>, b: seq<string>)
    requires AllOneLine(a) && AllOneLine(b)
    ensures AllOneLine(a + b)
  {
    forall i | 0 <= i < |a + b| ensures OneLine((a + b)[i]) {
      if i >= |a| { assert (a + b)[i] == b[i - |a|]; }
    }
  }

  lemma SubtotalTextOneLine(lines: seq<Line>, fmt: int -> string)
    requires OneLine(fmt(Subtotal(lines)))
    ensures OneLine(SubtotalText(lines, fmt))
  {
    var a := fmt(Subtotal(lines));
    assert OneLine("Subtotal estimado: $");
    assert OneLine(" MXN");
    assert SubtotalText(lines, fmt) == "Subtotal estimado: $" + a + " MXN";
  }

  lemma LineTextsOneLine(lines: seq<Line>)
    requires forall i :: 0 <= i < |lines| ==> LineFieldsOneLine(lines[i])
    ensures AllOneLine(LineTexts(lines))
  {
    var ts := LineTexts(lines);
    forall i | 0 <= i < |ts| ensures OneLine(ts[i]) {
      LineTextOneLine(lines[i]);
    }
  }

  lemma PairOneLine(a: string, b: string)
    requires OneLine(a) && OneLine(b)
    ensures AllOneLine([a, b])
  {
  }

  lemma MessageLinesOneLine(lines: seq<Line>, fmt: int -> string)
    requires forall i :: 0 <= i < |lines| ==> LineFieldsOneLine(lines[i])
    requires OneLine(fmt(Subtotal(lines)))
    ensures AllOneLine(MessageLines(lines, fmt))
  {
    var t := SubtotalText(lines, fmt);
    LineTextsOneLine(lines);
    HeaderOneLine();
    SubtotalTextOneLine(lines, fmt);
    PairOneLine(Header, "");
    PairOneLine("", t);
    AllOneLineAppend([Header, ""], LineTexts(lines));
    AllOneLineAppend([Header, ""] + LineTexts(lines), ["", t]);
  }

  /** Read back line by line, the body gives the header, a blank line, each
      cart line in cart order, a blank line and the subtotal line, as long as
      no field contains a line break. */
  lemma MessageLayout(lines: seq<Line>, fmt: int -> string)
    requires forall i :: 0 <= i < |lines| ==> LineFieldsOneLine(lines[i])
    requires OneLine(fmt(Subtotal(lines)))
    ensures Split(MessageBody(lines, fmt), '\n') == MessageLines(lines, fmt)
  {
    MessageLinesOneLine(lines, fmt);
    SplitJoin(MessageLines(lines, fmt), '\n');
  }

  /** The body has one text line per cart line, in cart order, between the two
      header lines and the two closing lines. */
  lemma MessageLineOrder(lines: seq<Line>, fmt: int -> string)
    requires forall i :: 0 <= i < |lines| ==> LineFieldsOneLine(lines[i])
    requires OneLine(fmt(Subtotal(lines)))
    ensures var parts := Split(MessageBody(lines, fmt), '\n');
      && |parts| == |lines| + 4
      && parts[0] == Header && parts[1] == ""
      && (forall i :: 0 <= i < |lines| ==> parts[i + 2] == LineText(lines[i]))
      && parts[|lines| + 2] == "" && parts[|lines| + 3] == SubtotalText(lines, fmt)
  {
    MessageLayout(lines, fmt);
    MessageLinesIndex(lines, fmt);
  }

  lemma MessageLinesIndex(lines: seq<Line>, fmt: int -> string)
    ensures var parts := MessageLines(lines, fmt);
      && |parts| == |lines| + 4
      && parts[0] == Header && parts[1] == ""
      && (forall i :: 0 <= i < |lines| ==> parts[i + 2] == LineText(lines[i]))
      && parts[|lines| + 2] == "" && parts[|lines| + 3] == SubtotalText(lines, fmt)
  {
    var parts := MessageLines(lines, fmt);
    var ts := LineTexts(lines);
    assert parts == [Header, ""] + ts + ["", SubtotalText(lines, fmt)];
    Framed(Header, "", ts, "", SubtotalText(lines, fmt));
    assert forall i :: 0 <= i < |lines| ==> ts[i] == LineText(lines[i]);
  }

  /** Positions in a list framed by two items on each side. */
  lemma Framed(a: string, b: string, ts: seq<string>, c: string, d: string)
    ensures var parts := [a, b] + ts + [c, d];
      && |parts| == |ts| + 4
      && parts[0] == a && parts[1] == b
      && (forall i :: 0 <= i < |ts| ==> parts[i + 2] == ts[i])
      && parts[|ts| + 2] == c && parts[|ts| + 3] == d
  {
  }

  lemma JoinCons(p: string, rest: seq<string>, sep: string)
    requires |rest| > 0
    ensures Join([p] + rest, sep) == p + sep + Join(rest, sep)
  {
    assert ([p] + rest)[1..] == rest;
  }

  lemma JoinFour(a: string, b: string, c: string, d: string, sep: string)
    ensures Join([a, b, c, d], sep) == a + sep + b + sep + c + sep + d
  {
    assert [a, b, c, d] == [a] + [b, c, d];
    JoinCons(a, [b, c, d], sep);
    assert [b, c, d] == [b] + [c, d];
    JoinCons(b, [c, d], sep);
    assert [c, d] == [c] + [d];
    JoinCons(c, [d], sep);
  }

  lemma JoinFive(a: string, b: string, c: string, d: string, e: string, sep: string)
    ensures Join([a, b, c, d, e], sep) == a + sep + b + sep + c + sep + d + sep + e
  {
    assert [a, b, c, d, e] == [a] + [b, c, d, e];
    JoinCons(a, [b, c, d, e], sep);
    JoinFour(b, c, d, e, sep);
  }

  /** An empty cart still yields a well-formed body: header and subtotal. */
  lemma EmptyCartMessage(fmt: int -> string)
    ensures MessageBody([], fmt) == Header + "\n" + "" + "\n" + "" + "\n" + SubtotalText([], fmt)
  {
    var t := SubtotalText([], fmt);
    assert MessageLines([], fmt) == [Header, "", "", t];
    JoinFour(Header, "", "", t, "\n");
  }

  /** `{ name: "A", size: "1L", code: "X1", qty: 2 }` renders as
      `• A — 1L (cód: X1) × 2`. */
  lemma SingleLineText()
    ensures LineText(Line("A", "C", "1L", "X1", 1000, 2)) == "\U{2022} A \U{2014} 1L (c\U{00F3}d: X1) \U{00D7} 2"
  {
    assert IntToString(2) == "2";
  }

  lemma SingleLineSubtotal()
    ensures Subtotal([Line("A", "C", "1L", "X1", 1000, 2)]) == 2000
  {
    var lines := [Line("A", "C", "1L", "X1", 1000, 2)];
    assert lines[..0] == [];
  }

  /** At $10.00 times 2 the closing line reads `Subtotal estimado: $20.00 MXN`
      and the body is header, blank, the one line, blank, subtotal. */
  lemma SingleLineMessage(fmt: int -> string)
    requires fmt(2000) == "20.00"
    ensures var lines := [Line("A", "C", "1L", "X1", 1000, 2)];
      && SubtotalText(lines, fmt) == "Subtotal estimado: $20.00 MXN"
      && MessageBody(lines, fmt) == Header + "\n" + "" + "\n" + LineText(lines[0]) + "\n" + "" + "\n" + SubtotalText(lines, fmt)
  {
    var lines := [Line("A", "C", "1L", "X1", 1000, 2)];
    SingleLineSubtotal();
    var l, t := LineText(lines[0]), SubtotalText(lines, fmt);
    assert LineTexts(lines) == [l];
    assert MessageLines(lines, fmt) == [Header, "", l, "", t];
    JoinFive(Header, "", l, "", t, "\n");
  }
}
