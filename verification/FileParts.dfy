/** Splitting a file into four parts and writing it out again
    (system_call/client_0.c, system_call/defines.c, system_call/server.c). */
module FileParts {

  const PARTS := 4
  const TEXT_MAX := 1024

  /** The size filter of enumerate_dir. */
  predicate Accepts(size: int)
  {
    0 <= size && size < 4096 && !(size < 4 || (size > 4 && size < 7) || size == 9)
  }

  /** filePartsSize[i]: three parts rounded up, the last takes what remains. */
  function PartSize(size: nat, i: nat): int
    requires i < PARTS
  {
    var base := if size % 4 == 0 then size / 4 else size / 4 + 1;
    if i < 3 then base else size - base * 3
  }

  /** Below 4096 bytes a file is accepted exactly when none of its four parts is
      empty, and then every part fits a message. */
  lemma AcceptedIffNoEmptyPart(size: nat)
    requires size < 4096
    ensures Accepts(size) <==> forall i :: 0 <= i < PARTS ==> PartSize(size, i) > 0
    ensures Accepts(size) ==> forall i :: 0 <= i < PARTS ==> PartSize(size, i) <= TEXT_MAX
  {
    assert PartSize(size, 0) == PartSize(size, 1) == PartSize(size, 2);
    assert PartSize(size, 3) == size - 3 * PartSize(size, 0);
    if Accepts(size) {
      forall i | 0 <= i < PARTS ensures 0 < PartSize(size, i) <= TEXT_MAX {
        assert i < 3 || i == 3;
      }
    } else {
      assert PartSize(size, 0) <= 0 || PartSize(size, 3) <= 0;
    }
  }

  function Start(size: nat, i: nat): int
    requires i <= PARTS
  {
    if i == 0 then 0 else Start(size, i - 1) + PartSize(size, i - 1)
  }

  lemma StartBounds(size: nat, i: nat)
    requires Accepts(size) && i < PARTS
    ensures 0 <= Start(size, i) < Start(size, i + 1) <= size
    ensures Start(size, PARTS) == size
  {
    AcceptedIffNoEmptyPart(size);
    assert Start(size, 1) == PartSize(size, 0);
    assert Start(size, 2) == 2 * PartSize(size, 0);
    assert Start(size, 3) == 3 * PartSize(size, 0);
    assert Start(size, 4) == size;
  }

  /** The i-th part of a file; empty for a file the filter would not accept. */
  function Part(data: seq<char>, i: nat): seq<char>
    requires i < PARTS
  {
    if 0 <= Start(|data|, i) <= Start(|data|, i + 1) <= |data| then data[Start(|data|, i)..Start(|data|, i + 1)] else []
  }

  /** The reading loop of child(): one read after the other from the same file. */
  method SplitFile(data: seq<char>) returns (parts: seq<seq<char>>)
    requires Accepts(|data|)
    ensures |parts| == PARTS && forall i :: 0 <= i < PARTS ==> parts[i] == Part(data, i)
    ensures parts[0] + parts[1] + parts[2] + parts[3] == data
    ensures |parts[0]| == |parts[1]| == |parts[2]| && 0 < |parts[3]| <= |parts[0]| < |parts[3]| + 4
  {
    hide Accepts; hide Part; hide Start; hide PartSize;
    parts := [];
    var offset := 0;
    StartsAtZero(|data|);
    for i := 0 to PARTS
      invariant |parts| == i && offset == Start(|data|, i) && 0 <= offset <= |data|
      invariant forall k :: 0 <= k < i ==> parts[k] == Part(data, k)
    {
      PartStep(data, i);
      var size := PartSize(|data|, i);
      parts := parts + [data[offset..offset + size]];
      offset := offset + size;
    }
    TheseParts(data, parts);
  }

  lemma StartsAtZero(size: nat)
    ensures Start(size, 0) == 0
  {
  }

  /** The part that one more read gives. */
  lemma PartStep(data: seq<char>, i: nat)
    requires Accepts(|data|) && i < PARTS
    ensures Start(|data|, i + 1) == Start(|data|, i) + PartSize(|data|, i)
    ensures 0 <= Start(|data|, i) < Start(|data|, i + 1) <= |data|
    ensures Part(data, i) == data[Start(|data|, i)..Start(|data|, i + 1)]
  {
    hide Accepts; hide PartSize;
    StartBounds(|data|, i);
  }

  lemma TheseParts(data: seq<char>, parts: seq<seq<char>>)
    requires Accepts(|data|) && |parts| == PARTS && (forall i :: 0 <= i < PARTS ==> parts[i] == Part(data, i))
    ensures parts[0] + parts[1] + parts[2] + parts[3] == data
    ensures |parts[0]| == |parts[1]| == |parts[2]| && 0 < |parts[3]| <= |parts[0]| < |parts[3]| + 4
  {
    hide Part;
    PartsJoin(data);
    PartLengths(data);
  }

  /** Three parts of the same length, a quarter of the file rounded up, and a last
      one that is at most three bytes shorter. */
  lemma PartLengths(data: seq<char>)
    requires Accepts(|data|)
    ensures |Part(data, 0)| == |Part(data, 1)| == |Part(data, 2)| == (|data| + 3) / 4
    ensures |Part(data, 3)| <= |Part(data, 0)| < |Part(data, 3)| + 4
    ensures var b := (|data| + 3) / 4;
      && b <= 2 * b <= 3 * b <= |data|
      && Part(data, 0) == data[..b] && Part(data, 1) == data[b..2 * b] && Part(data, 2) == data[2 * b..3 * b]
      && Part(data, 3) == data[3 * b..]
  {
    StartBounds(|data|, 0);
    StartBounds(|data|, 1);
    StartBounds(|data|, 2);
    StartBounds(|data|, 3);
    var b := (|data| + 3) / 4;
    assert Start(|data|, 1) == b && Start(|data|, 2) == 2 * b && Start(|data|, 3) == 3 * b;
  }

  /** The four parts of an accepted file, joined, are the file. */
  lemma PartsJoin(data: seq<char>)
    requires Accepts(|data|)
    ensures Part(data, 0) + Part(data, 1) + Part(data, 2) + Part(data, 3) == data
    ensures forall i :: 0 <= i < PARTS ==> 0 < |Part(data, i)| <= TEXT_MAX
  {
    AcceptedIffNoEmptyPart(|data|);
    StartBounds(|data|, 0);
    StartBounds(|data|, 1);
    StartBounds(|data|, 2);
    StartBounds(|data|, 3);
    FourSlices(data, Start(|data|, 1), Start(|data|, 2), Start(|data|, 3));
    forall i | 0 <= i < PARTS ensures 0 < |Part(data, i)| <= TEXT_MAX {
      StartBounds(|data|, i);
      assert Start(|data|, i + 1) == Start(|data|, i) + PartSize(|data|, i);
    }
  }

  lemma FourSlices(data: seq<char>, a: nat, b: nat, c: nat)
    requires a <= b <= c <= |data|
    ensures data[0..a] + data[a..b] + data[b..c] + data[c..|data|] == data
  {
  }

  // ------------------------------------------------------------ the output

  /** What strlen sees of a message: the text up to its first NUL. */
  function CText(text: seq<char>): (r: seq<char>)
    ensures r <= text && '\0' !in r
  {
    if text == [] || text[0] == '\0' then [] else [text[0]] + CText(text[1..])
  }

  /** The text ends at its own end or before a NUL, not earlier. */
  lemma {:induction false} CTextStops(text: seq<char>)
    ensures |CText(text)| == |text| || text[|CText(text)|] == '\0'
  {
    if text != [] { CTextStops(text[1..]); }
  }

  lemma {:induction false} CTextWhole(text: seq<char>)
    ensures CText(text) == text <==> '\0' !in text
  {
    if text != [] { CTextWhole(text[1..]); }
  }

  function Digit(n: nat): char
    requires n < 10
  {
    ['0', '1', '2', '3', '4', '5', '6', '7', '8', '9'][n]
  }

  function Decimal(n: nat): string
  {
    if n < 10 then [Digit(n)] else Decimal(n / 10) + [Digit(n % 10)]
  }

  const IPCS_NAMES: seq<string> := ["FIFO1", "FIFO2", "msgQueue", "ShdMem"]

  function Heading(i: nat, filename: string, pid: nat): string
    requires i < PARTS
  {
    "[Parte " + Decimal(i) + ", del file " + filename + ", spedita dal processo " + Decimal(pid) + " tramite " +
      IPCS_NAMES[i] + "]"
  }

  /** One part as write_on_file writes it: heading, text, and blank lines between. */
  function PartText(i: nat, filename: string, pid: nat, text: seq<char>): string
    requires i < PARTS
  {
    Heading(i, filename, pid) + "\n" + CText(text) + "\n" + if i != 3 then "\n" else ""
  }

  // ------------------------------------------------------- what is written

  predicate Digits(d: string)
  {
    forall i :: 0 <= i < |d| ==> '0' <= d[i] <= '9'
  }

  function DigitValue(c: char): nat
    requires '0' <= c <= '9'
  {
    (c - '0') as nat
  }

  /** The number a string of digits stands for. */
  function Value(d: string): nat
    requires Digits(d)
  {
    if d == "" then 0 else 10 * Value(d[..|d| - 1]) + DigitValue(d[|d| - 1])
  }

  /** A number is written without leading zeros. */
  predicate Numeral(d: string)
  {
    Digits(d) && d != "" && (d[0] == '0' ==> |d| == 1)
  }

  lemma DigitReads(n: nat)
    requires n < 10
    ensures '0' <= Digit(n) <= '9' && DigitValue(Digit(n)) == n && (Digit(n) == '0' ==> n == 0)
  {
  }

  lemma OnlyDigit(c: char)
    requires '0' <= c <= '9'
    ensures DigitValue(c) < 10 && Digit(DigitValue(c)) == c
  {
    DigitReads(DigitValue(c));
  }

  lemma OneDigitMore(d: string, c: char)
    requires Digits(d) && '0' <= c <= '9'
    ensures Digits(d + [c]) && Value(d + [c]) == 10 * Value(d) + DigitValue(c)
  {
    assert (d + [c])[..|d|] == d;
  }

  lemma OneDigit(c: char)
    requires '0' <= c <= '9'
    ensures Digits([c]) && Value([c]) == DigitValue(c)
  {
  }

  /** Printing and reading back: the digits printed stand for the number. */
  lemma {:induction false} DecimalReads(n: nat)
    ensures Numeral(Decimal(n)) && Value(Decimal(n)) == n
    ensures n > 0 ==> Decimal(n)[0] != '0'
  {
    hide Digit; hide DigitValue; hide Value; hide Digits;
    DigitReads(n % 10);
    if n >= 10 {
      DecimalReads(n / 10);
      OneDigitMore(Decimal(n / 10), Digit(n % 10));
    } else {
      OneDigit(Digit(n));
    }
  }

  /** Reading and printing back: there is no other numeral for a number. */
  lemma {:induction false} NumeralIsDecimal(d: string)
    requires Numeral(d)
    ensures Decimal(Value(d)) == d
    decreases |d|
  {
    hide Digit; hide DigitValue; hide Digits; hide Value; hide Decimal;
    var front, c := d[..|d| - 1], d[|d| - 1];
    assert d == front + [c];
    LastDigit(d);
    OnlyDigit(c);
    if front != "" {
      NumeralIsDecimal(front);
      ZeroIsAlone(front);
      DecimalAppends(Value(front), DigitValue(c));
    } else {
      DecimalOfDigit(DigitValue(c));
    }
  }

  lemma LastDigit(d: string)
    requires Digits(d) && d != ""
    ensures Digits(d[..|d| - 1]) && '0' <= d[|d| - 1] <= '9'
    ensures Value(d) == 10 * Value(d[..|d| - 1]) + DigitValue(d[|d| - 1])
    ensures |d| == 1 ==> Value(d) == DigitValue(d[0])
  {
  }

  lemma DecimalAppends(n: nat, digit: nat)
    requires n > 0 && digit < 10
    ensures Decimal(10 * n + digit) == Decimal(n) + [Digit(digit)]
  {
    hide Digit;
    assert (10 * n + digit) / 10 == n && (10 * n + digit) % 10 == digit;
  }

  lemma DecimalOfDigit(n: nat)
    requires n < 10
    ensures Decimal(n) == [Digit(n)]
  {
  }

  lemma ZeroIsAlone(d: string)
    requires Numeral(d) && Decimal(Value(d)) == d && d[0] != '0'
    ensures Value(d) > 0
  {
  }

  /** The four headings, word by word. */
  lemma HeadingText(f: string, pid: nat)
    ensures Heading(0, f, pid) ==
      "[Parte 0, del file " + f + ", spedita dal processo " + Decimal(pid) + " tramite FIFO1]"
    ensures Heading(1, f, pid) ==
      "[Parte 1, del file " + f + ", spedita dal processo " + Decimal(pid) + " tramite FIFO2]"
    ensures Heading(2, f, pid) ==
      "[Parte 2, del file " + f + ", spedita dal processo " + Decimal(pid) + " tramite msgQueue]"
    ensures Heading(3, f, pid) ==
      "[Parte 3, del file " + f + ", spedita dal processo " + Decimal(pid) + " tramite ShdMem]"
  {
    hide Heading;
    Heading0(f, pid);
    Heading1(f, pid);
    Heading2(f, pid);
    Heading3(f, pid);
  }

  lemma Heading0(f: string, pid: nat)
    ensures Heading(0, f, pid) ==
      "[Parte 0, del file " + f + ", spedita dal processo " + Decimal(pid) + " tramite FIFO1]"
  {
    Closed(f, Decimal(pid), "0", "FIFO1");
    assert "[Parte " + "0" + ", del file " == "[Parte 0, del file ";
    assert " tramite " + "FIFO1" + "]" == " tramite FIFO1]";
  }

  lemma Heading1(f: string, pid: nat)
    ensures Heading(1, f, pid) ==
      "[Parte 1, del file " + f + ", spedita dal processo " + Decimal(pid) + " tramite FIFO2]"
  {
    Closed(f, Decimal(pid), "1", "FIFO2");
    assert "[Parte " + "1" + ", del file " == "[Parte 1, del file ";
    assert " tramite " + "FIFO2" + "]" == " tramite FIFO2]";
  }

  lemma Heading2(f: string, pid: nat)
    ensures Heading(2, f, pid) ==
      "[Parte 2, del file " + f + ", spedita dal processo " + Decimal(pid) + " tramite msgQueue]"
  {
    Closed(f, Decimal(pid), "2", "msgQueue");
    assert "[Parte " + "2" + ", del file " == "[Parte 2, del file ";
    assert " tramite " + "msgQueue" + "]" == " tramite msgQueue]";
  }

  lemma Heading3(f: string, pid: nat)
    ensures Heading(3, f, pid) ==
      "[Parte 3, del file " + f + ", spedita dal processo " + Decimal(pid) + " tramite ShdMem]"
  {
    Closed(f, Decimal(pid), "3", "ShdMem");
    assert "[Parte " + "3" + ", del file " == "[Parte 3, del file ";
    assert " tramite " + "ShdMem" + "]" == " tramite ShdMem]";
  }

  lemma Closed(f: string, pid: string, digit: string, name: string)
    ensures "[Parte " + digit + ", del file " + f + ", spedita dal processo " + pid + " tramite " + name + "]" ==
      ("[Parte " + digit + ", del file ") + f + ", spedita dal processo " + pid + (" tramite " + name + "]")
  {
  }

  /** The four sections of an output file, word by word. */
  lemma PartTextIs(f: string, pid: nat, text: seq<char>)
    ensures PartText(0, f, pid, text) == "[Parte 0, del file " + f + ", spedita dal processo " + Decimal(pid) +
      " tramite FIFO1]" + "\n" + CText(text) + "\n\n"
    ensures PartText(1, f, pid, text) == "[Parte 1, del file " + f + ", spedita dal processo " + Decimal(pid) +
      " tramite FIFO2]" + "\n" + CText(text) + "\n\n"
    ensures PartText(2, f, pid, text) == "[Parte 2, del file " + f + ", spedita dal processo " + Decimal(pid) +
      " tramite msgQueue]" + "\n" + CText(text) + "\n\n"
    ensures PartText(3, f, pid, text) == "[Parte 3, del file " + f + ", spedita dal processo " + Decimal(pid) +
      " tramite ShdMem]" + "\n" + CText(text) + "\n"
  {
    hide Heading; hide CText; hide Decimal;
    HeadingText(f, pid);
    BlankLine(Heading(0, f, pid) + "\n" + CText(text));
    BlankLine(Heading(1, f, pid) + "\n" + CText(text));
    BlankLine(Heading(2, f, pid) + "\n" + CText(text));
    NoBlankLine(Heading(3, f, pid) + "\n" + CText(text) + "\n");
  }

  lemma BlankLine(s: string)
    ensures s + "\n" + "\n" == s + "\n\n"
  {
    assert "\n" + "\n" == "\n\n";
  }

  lemma NoBlankLine(s: string)
    ensures s + "" == s
  {
  }

  /** The whole file joined back from what the server writes is the original,
      exactly when the original has no NUL. */
  lemma WrittenTextIff(data: seq<char>)
    requires Accepts(|data|)
    ensures CText(Part(data, 0)) + CText(Part(data, 1)) + CText(Part(data, 2)) + CText(Part(data, 3)) == data
      <==> '\0' !in data
  {
    PartsJoin(data);
    var p0, p1, p2, p3 := Part(data, 0), Part(data, 1), Part(data, 2), Part(data, 3);
    CTextWhole(p0);
    CTextWhole(p1);
    CTextWhole(p2);
    CTextWhole(p3);
    if '\0' !in data {
      assert forall c :: c in p0 || c in p1 || c in p2 || c in p3 ==> c in p0 + p1 + p2 + p3;
    }
  }

  /** Four bytes, one of them NUL: accepted, and one byte short when written. */
  lemma NulIsLost()
    ensures var data := ['a', '\0', 'b', 'c'];
      && Accepts(|data|)
      && CText(Part(data, 0)) + CText(Part(data, 1)) + CText(Part(data, 2)) + CText(Part(data, 3)) == ['a', 'b', 'c']
  {
    var data := ['a', '\0', 'b', 'c'];
    assert PartSize(4, 0) == PartSize(4, 1) == PartSize(4, 2) == PartSize(4, 3) == 1;
    assert Start(4, 0) == 0 && Start(4, 1) == 1 && Start(4, 2) == 2 && Start(4, 3) == 3 && Start(4, 4) == 4;
    assert Part(data, 0) == ['a'] && Part(data, 1) == ['\0'] && Part(data, 2) == ['b'] && Part(data, 3) == ['c'];
    assert CText(['a']) == ['a'] && CText(['b']) == ['b'] && CText(['c']) == ['c'];
  }
}
