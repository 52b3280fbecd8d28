/** Text operations of the source: white space stripping, joining and decimal numbers. */
module Texts {

  /** The characters that `str.strip()` removes. */
  predicate IsSpace(c: char) {
    || '\t' <= c <= '\r' || c == ' ' || '\U{1c}' <= c <= '\U{1f}'
    || c == '\U{85}' || c == '\U{a0}' || c == '\U{1680}' || '\U{2000}' <= c <= '\U{200a}'
    || c == '\U{2028}' || c == '\U{2029}' || c == '\U{202f}' || c == '\U{205f}' || c == '\U{3000}'
  }

  /** The white space code points, one by one. */
  lemma Spaces(c: char)
    ensures IsSpace(c) <==> c as int in {
              9, 10, 11, 12, 13, 28, 29, 30, 31, 32, 0x85, 0xa0, 0x1680, 0x2000, 0x2001, 0x2002, 0x2003, 0x2004, 0x2005,
              0x2006, 0x2007, 0x2008, 0x2009, 0x200a, 0x2028, 0x2029, 0x202f, 0x205f, 0x3000}
  {
  }

  function RStrip(s: string): (r: string)
    ensures r <= s
    ensures r == "" || !IsSpace(r[|r| - 1])
  {
    if s != "" && IsSpace(s[|s| - 1]) then RStrip(s[..|s| - 1]) else s
  }

  function LStrip(s: string): (r: string)
    ensures |r| <= |s|
    ensures r == "" || !IsSpace(r[0])
  {
    if s != "" && IsSpace(s[0]) then LStrip(s[1..]) else s
  }

  function Strip(s: string): (r: string)
    ensures |r| <= |s|
  {
    RStrip(LStrip(s))
  }

  ghost predicate Blank(s: string) {
    forall c | c in s :: IsSpace(c)
  }

  /** Stripping removes the white space at both ends, all of it and nothing else. */
  lemma StripRemovesPads(before: string, core: string, after: string)
    requires Blank(before) && Blank(after)
    requires core == "" || (!IsSpace(core[0]) && !IsSpace(core[|core| - 1]))
    ensures Strip(before + (core + after)) == core
  {
    if core == "" {
      assert before + (core + after) == before + after + "";
      LStripRemovesPad(before + after, "");
    } else {
      assert (core + after)[0] == core[0];
      LStripRemovesPad(before, core + after);
      RStripRemovesPad(core, after);
    }
  }

  lemma {:induction false} RStripRemovesPad(core: string, after: string)
    requires Blank(after) && (core == "" || !IsSpace(core[|core| - 1]))
    ensures RStrip(core + after) == core
  {
    if after == "" {
      assert core + after == core;
    } else {
      assert (core + after)[..|core + after| - 1] == core + after[..|after| - 1];
      assert (core + after)[|core + after| - 1] == after[|after| - 1];
      RStripRemovesPad(core, after[..|after| - 1]);
    }
  }

  lemma {:induction false} LStripRemovesPad(before: string, core: string)
    requires Blank(before) && (core == "" || !IsSpace(core[0]))
    ensures LStrip(before + core) == core
  {
    if before == "" {
      assert before + core == core;
    } else {
      assert (before + core)[1..] == before[1..] + core;
      assert (before + core)[0] == before[0];
      LStripRemovesPad(before[1..], core);
    }
  }

  /** `"\n\n".join(parts)` */
  function Join(parts: seq<string>): string {
    if parts == [] then "" else if |parts| == 1 then parts[0] else parts[0] + "\n\n" + Join(parts[1..])
  }

  function TotalLength(parts: seq<string>): nat {
    if parts == [] then 0 else |parts[0]| + TotalLength(parts[1..])
  }

  lemma {:induction false} JoinLength(parts: seq<string>)
    ensures |Join(parts)| == if parts == [] then 0 else TotalLength(parts) + 2 * (|parts| - 1)
  {
    if |parts| > 1 {
      JoinLength(parts[1..]);
    }
  }

  lemma {:induction false} TotalLengthAppend(a: seq<string>, b: seq<string>)
    ensures TotalLength(a + b) == TotalLength(a) + TotalLength(b)
  {
    if a == [] {
      assert a + b == b;
    } else {
      assert (a + b)[1..] == a[1..] + b;
      TotalLengthAppend(a[1..], b);
    }
  }

  lemma JoinSnoc(parts: seq<string>, part: string)
    ensures |Join(parts + [part])| == if parts == [] then |part| else |Join(parts)| + 2 + |part|
  {
    JoinLength(parts);
    JoinLength(parts + [part]);
    TotalLengthAppend(parts, [part]);
  }

  /** Joined texts start with the first one and end with the last character of the last one. */
  lemma {:induction false} JoinEnds(texts: seq<string>)
    requires texts != [] && forall t | t in texts :: t != "" && !IsSpace(t[|t| - 1])
    ensures var joined := Join(texts);
            texts[0] <= joined && joined != "" && !IsSpace(joined[|joined| - 1])
  {
    assert texts[0] in texts;
    if |texts| > 1 {
      forall t | t in texts[1..] ensures t in texts {}
      JoinEnds(texts[1..]);
      EndOfConcat(texts[0] + "\n\n", Join(texts[1..]));
    }
  }

  lemma EndOfConcat(a: string, b: string)
    requires b != "" && !IsSpace(b[|b| - 1])
    ensures a + b != "" && !IsSpace((a + b)[|a + b| - 1])
  {
    assert (a + b)[|a + b| - 1] == b[|b| - 1];
  }

  function Decimal(n: nat): (r: string)
    ensures |r| >= 1
    ensures n >= 10 ==> |r| >= 2
  {
    if n < 10 then ["0123456789"[n]] else Decimal(n / 10) + ["0123456789"[n % 10]]
  }

  function DigitValue(c: char): int {
    c as int - '0' as int
  }

  /** `int(text)` of a text of digits. */
  function Value(text: string): int {
    if text == "" then 0 else 10 * Value(text[..|text| - 1]) + DigitValue(text[|text| - 1])
  }

  /** A decimal is digits without a leading zero, and reads as its number. */
  lemma {:induction false} DecimalReads(n: nat)
    ensures Value(Decimal(n)) == n
    ensures forall c | c in Decimal(n) :: '0' <= c <= '9'
    ensures n > 0 ==> Decimal(n)[0] != '0'
  {
    var digits := "0123456789";
    assert forall i | 0 <= i < 10 :: digits[i] as int == '0' as int + i;
    if n < 10 {
      assert Decimal(n)[..0] == "";
    } else {
      DecimalReads(n / 10);
      var front := Decimal(n / 10);
      assert Decimal(n) == front + [digits[n % 10]];
      assert Decimal(n)[..|front|] == front;
    }
  }

  function Take(s: string, n: int): string {
    if n <= 0 then "" else if n >= |s| then s else s[..n]
  }
}
