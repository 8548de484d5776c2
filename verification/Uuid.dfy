/** The text form of UUIDs (section 4 of RFC 9562): the parsing constructor,
    `string()` and the comparison operators. */
module Uuid {
  import opened Bytes

  datatype Nibble = Nibble(v: nat) | NotHex

  function Unhex(ch: char): (r: Nibble)
    ensures r.Nibble? ==> r.v < 16
  {
    if '0' <= ch <= '9' then Nibble(ch as int - '0' as int)
    else if 'a' <= ch <= 'f' then Nibble(10 + (ch as int - 'a' as int))
    else if 'A' <= ch <= 'F' then Nibble(10 + (ch as int - 'A' as int))
    else NotHex
  }

  // --------------------------------------------------------------- parsing

  predicate IsPunctuation(ch: char) { ch == '-' || ch == '{' || ch == '}' }

  /** The characters the parser looks at. */
  function Significant(s: string): string {
    if s == "" then ""
    else Significant(s[..|s| - 1]) + if IsPunctuation(s[|s| - 1]) then "" else [s[|s| - 1]]
  }

  datatype Parsed = Parsed(data: seq<Byte>) | DomainError

  /** The bytes of the first n pairs of hex digits. */
  function Pairs(t: string, n: nat): (r: Parsed)
    requires 2 * n <= |t|
    ensures r.Parsed? ==> |r.data| == n
  {
    if n == 0 then Parsed([]) else
      var rest := Pairs(t, n - 1);
      var hi, lo := Unhex(t[2 * n - 2]), Unhex(t[2 * n - 1]);
      if rest.DomainError? || hi.NotHex? || lo.NotHex? then DomainError
      else Parsed(rest.data + [hi.v * 16 + lo.v])
  }

  function Zeros(n: nat): (z: seq<Byte>)
    ensures |z| == n && forall i :: 0 <= i < n ==> z[i] == 0
  {
    seq(n, _ => 0)
  }

  function AtMost32(t: string): string { if |t| <= 32 then t else t[..32] }

  /** Only the first 32 significant characters count; missing bytes are zero. */
  function ParseOf(s: string): Parsed {
    var t := AtMost32(Significant(s));
    var r := Pairs(t, |t| / 2);
    if r.DomainError? then r else Parsed(r.data + Zeros(16 - |r.data|))
  }

  lemma {:induction false} SignificantConcat(s: string, t: string)
    ensures Significant(s + t) == Significant(s) + Significant(t)
  {
    if t == "" {
      assert s + t == s;
    } else {
      assert (s + t)[..|s + t| - 1] == s + t[..|t| - 1];
      SignificantConcat(s, t[..|t| - 1]);
    }
  }

  lemma SignificantPrefix(s: string, i: nat)
    requires i <= |s|
    ensures |Significant(s[..i])| <= |Significant(s)|
    ensures Significant(s)[..|Significant(s[..i])|] == Significant(s[..i])
  {
    assert s == s[..i] + s[i..];
    SignificantConcat(s[..i], s[i..]);
  }

  lemma {:induction false} PairsExtend(t: string, u: string, n: nat)
    requires 2 * n <= |t|
    ensures Pairs(t + u, n) == Pairs(t, n)
  {
    if n > 0 { PairsExtend(t, u, n - 1); }
  }

  lemma {:induction false} PairsErrorStays(t: string, k: nat, n: nat)
    requires k <= n && 2 * n <= |t| && Pairs(t, k).DomainError?
    ensures Pairs(t, n).DomainError?
  {
    if k < n { PairsErrorStays(t, k, n - 1); }
  }

  /** The loop has looked at i characters: complete pairs are in the first
      `index` bytes, a single digit is held in v1, and the rest is zero. */
  ghost predicate Progress(uuid: string, i: nat, index: nat, pack: bool, v1: char, d: seq<Byte>) {
    && i <= |uuid| && |d| == 16 && index <= 16
    && var t := Significant(uuid[..i]);
    && |t| == 2 * index + (if pack then 1 else 0)
    && (pack ==> v1 == t[|t| - 1])
    && Pairs(t, index) == Parsed(d[..index])
    && d[index..] == Zeros(16 - index)
  }

  lemma SignificantNext(uuid: string, i: nat)
    requires i < |uuid|
    ensures Significant(uuid[..i + 1]) ==
            if IsPunctuation(uuid[i]) then Significant(uuid[..i]) else Significant(uuid[..i]) + [uuid[i]]
  {
    assert uuid[..i + 1][..i] == uuid[..i];
  }

  lemma NothingYet(uuid: string, v1: char)
    ensures Progress(uuid, 0, 0, false, v1, Zeros(16))
  {}

  lemma Skipped(uuid: string, i: nat, index: nat, pack: bool, v1: char, d: seq<Byte>)
    requires Progress(uuid, i, index, pack, v1, d) && i < |uuid| && IsPunctuation(uuid[i])
    ensures Progress(uuid, i + 1, index, pack, v1, d)
  {
    SignificantNext(uuid, i);
  }

  lemma FirstDigit(uuid: string, i: nat, index: nat, v1: char, d: seq<Byte>)
    requires Progress(uuid, i, index, false, v1, d) && i < |uuid| && !IsPunctuation(uuid[i])
    ensures Progress(uuid, i + 1, index, true, uuid[i], d)
  {
    SignificantNext(uuid, i);
    PairsExtend(Significant(uuid[..i]), [uuid[i]], index);
  }

  lemma SecondDigit(uuid: string, i: nat, index: nat, v1: char, d: seq<Byte>)
    requires Progress(uuid, i, index, true, v1, d) && i < |uuid| && !IsPunctuation(uuid[i]) && index < 16
    ensures var hi, lo := Unhex(v1), Unhex(uuid[i]);
            if hi.NotHex? || lo.NotHex? then ParseOf(uuid).DomainError?
            else Progress(uuid, i + 1, index + 1, false, v1, d[index := hi.v * 16 + lo.v])
  {
    var t := Significant(uuid[..i]);
    var hi, lo := Unhex(v1), Unhex(uuid[i]);
    SignificantNext(uuid, i);
    PairsExtend(t, [uuid[i]], index);
    if hi.NotHex? || lo.NotHex? {
      BadPair(uuid, i + 1, index + 1);
    } else {
      var d' := d[index := hi.v * 16 + lo.v];
      assert d'[..index + 1] == d[..index] + [hi.v * 16 + lo.v];
      assert d'[index + 1..] == d[index..][1..] == Zeros(16 - index - 1);
    }
  }

  /** A pair that is not two hex digits, anywhere in the first 32, is fatal. */
  lemma BadPair(s: string, i: nat, k: nat)
    requires i <= |s| && |Significant(s[..i])| == 2 * k <= 32 && Pairs(Significant(s[..i]), k).DomainError?
    ensures ParseOf(s).DomainError?
  {
    var t := AtMost32(Significant(s));
    SignificantPrefix(s, i);
    assert t == Significant(s[..i]) + t[2 * k..];
    PairsExtend(Significant(s[..i]), t[2 * k..], k);
    PairsErrorStays(t, k, |t| / 2);
  }

  lemma Finished(uuid: string, i: nat, index: nat, pack: bool, v1: char, d: seq<Byte>)
    requires Progress(uuid, i, index, pack, v1, d) && (index < 16 ==> i == |uuid|) && (index == 16 ==> !pack)
    ensures ParseOf(uuid) == Parsed(d)
    ensures |d| == 16 && forall j :: index <= j < 16 ==> d[j] == 0
  {
    var t := Significant(uuid[..i]);
    SignificantPrefix(uuid, i);
    if index < 16 { assert uuid[..i] == uuid; }
    assert AtMost32(Significant(uuid)) == t;
    assert d == d[..index] + d[index..];
    assert forall j :: index <= j < 16 ==> d[j] == d[index..][j - index];
  }

  /** UUID(const char* uuid, size_t size) */
  method Parse(uuid: string) returns (r: Parsed)
    ensures r == ParseOf(uuid)
  {
    var data := new Byte[16](_ => 0);
    var v1: char, v2: char := '\0', '\0';
    var pack := false;
    var index := 0;
    var i := 0;
    assert data[..] == Zeros(16);
    NothingYet(uuid, v1);
    hide Progress;
    while i < |uuid|
      invariant i <= |uuid| && index < 16 && Progress(uuid, i, index, pack, v1, data[..])
    {
      var ch := uuid[i];
      if ch == '-' || ch == '{' || ch == '}' {
        Skipped(uuid, i, index, pack, v1, data[..]);
        i := i + 1;
        continue;
      }
      if pack {
        SecondDigit(uuid, i, index, v1, data[..]);
        v2 := ch;
        pack := false;
        var ui1, ui2 := Unhex(v1), Unhex(v2);
        if ui1.NotHex? || ui2.NotHex? { return DomainError; }
        ghost var before: seq<Byte> := data[..];
        var value: Byte := ui1.v * 16 + ui2.v;
        data[index] := value;
        assert data[..] == before[index := value];
        index := index + 1;
        i := i + 1;
        if index >= 16 { break; }
      } else {
        FirstDigit(uuid, i, index, v1, data[..]);
        v1 := ch;
        pack := true;
        i := i + 1;
      }
    }
    Finished(uuid, i, index, pack, v1, data[..]);
    ghost var parsed, k := data[..], index;
    while index < 16
      invariant k <= index && data[..] == parsed
    {
      data[index] := 0;
      index := index + 1;
      index := index + 1;
    }
    return Parsed(data[..]);
  }

  // -------------------------------------------------------------- printing

  /** "0123456789abcdef"[v] */
  function Digit(v: nat): (c: char)
    requires v < 16
  {
    if v < 10 then ('0' as int + v) as char else ('a' as int + v - 10) as char
  }

  lemma DigitTable(v: nat)
    requires v < 16
    ensures "0123456789abcdef"[v] == Digit(v)
  {}

  function Hex2(b: Byte): string { [Digit(b / 16), Digit(b % 16)] }

  function Hex(d: seq<Byte>): string {
    if d == [] then "" else Hex(d[..|d| - 1]) + Hex2(d[|d| - 1])
  }

  /** 4hexOctet "-" 2hexOctet "-" 2hexOctet "-" 2hexOctet "-" 6hexOctet */
  function Text(d: seq<Byte>): string
    requires |d| == 16
  {
    Hex(d[0..4]) + "-" + Hex(d[4..6]) + "-" + Hex(d[6..8]) + "-" + Hex(d[8..10]) + "-" + Hex(d[10..16])
  }

  predicate DashAfter(k: nat) { k == 4 || k == 6 || k == 8 || k == 10 }

  /** What the loop has written after k bytes. */
  function Written(d: seq<Byte>, k: nat): string
    requires k <= |d|
  {
    if k == 0 then "" else Written(d, k - 1) + Hex2(d[k - 1]) + if DashAfter(k) then "-" else ""
  }

  function Dashes(k: nat): nat {
    (if k >= 4 then 1 else 0) + (if k >= 6 then 1 else 0) + (if k >= 8 then 1 else 0) + (if k >= 10 then 1 else 0)
  }

  lemma {:induction false} WrittenLength(d: seq<Byte>, k: nat)
    requires k <= |d|
    ensures |Written(d, k)| == 2 * k + Dashes(k)
  {
    if k > 0 { WrittenLength(d, k - 1); }
  }

  lemma HexSnoc(d: seq<Byte>, i: nat, k: nat)
    requires i < k <= |d|
    ensures Hex(d[i..k]) == Hex(d[i..k - 1]) + Hex2(d[k - 1])
  {
    assert d[i..k][..k - i - 1] == d[i..k - 1];
  }

  lemma {:induction false} WrittenRun(d: seq<Byte>, i: nat, k: nat)
    requires i <= k <= |d| && forall j :: i < j <= k ==> !DashAfter(j)
    ensures Written(d, k) == Written(d, i) + Hex(d[i..k])
    decreases k
  {
    if i < k {
      hide Hex, Hex2;
      WrittenRun(d, i, k - 1);
      HexSnoc(d, i, k);
      Associative(Written(d, i), Hex(d[i..k - 1]), Hex2(d[k - 1]));
    }
  }

  /** One group of octets and the dash that ends it. */
  lemma WrittenGroup(d: seq<Byte>, i: nat, k: nat)
    requires i < k <= |d| && DashAfter(k) && forall j :: i < j < k ==> !DashAfter(j)
    ensures Written(d, k) == Written(d, i) + Hex(d[i..k]) + "-"
  {
    hide Hex, Hex2;
    WrittenRun(d, i, k - 1);
    HexSnoc(d, i, k);
    Associative(Written(d, i), Hex(d[i..k - 1]), Hex2(d[k - 1]));
  }

  lemma Associative(a: string, b: string, c: string)
    ensures a + b + c == a + (b + c)
  {}

  lemma WrittenIsText(d: seq<Byte>)
    requires |d| == 16
    ensures Written(d, 16) == Text(d)
  {
    WrittenGroup(d, 0, 4);
    assert Written(d, 0) + Hex(d[0..4]) == Hex(d[0..4]);
    WrittenGroup(d, 4, 6);
    WrittenGroup(d, 6, 8);
    WrittenGroup(d, 8, 10);
    WrittenRun(d, 10, 16);
  }

  /** Two digits, and a dash after bytes 4, 6, 8 and 10. */
  method WriteByte(result: array<char>, index0: nat, value: Byte) returns (index: nat)
    requires index0 + 2 <= result.Length && (index0 in {6, 11, 16, 21} ==> index0 + 3 <= result.Length)
    modifies result
    ensures index == index0 + if index0 in {6, 11, 16, 21} then 3 else 2
    ensures index <= result.Length
    ensures result[..index] == old(result[..index0]) + Hex2(value) + if index0 in {6, 11, 16, 21} then "-" else ""
  {
    var digits := "0123456789abcdef";
    DigitTable(value / 16);
    DigitTable(value % 16);
    index := index0;
    result[index] := digits[value / 16];
    index := index + 1;
    result[index] := digits[value % 16];
    index := index + 1;
    if index == 8 || index == 13 || index == 18 || index == 23 {
      result[index] := '-';
      index := index + 1;
    }
  }

  /** UUID::string() */
  method ToString(data: seq<Byte>) returns (s: string)
    requires |data| == 16
    ensures s == Text(data)
  {
    var result := new char[36](_ => '0');
    var index := 0;
    for k := 0 to 16
      invariant index == 2 * k + Dashes(k) <= 36 && result.Length == 36
      invariant result[..index] == Written(data, k)
    {
      index := WriteByte(result, index, data[k]);
    }
    WrittenIsText(data);
    assert result[..36] == result[..];
    return result[..];
  }

  // ------------------------------------------------------------ round trip

  lemma UnhexDigit(v: nat)
    requires v < 16
    ensures Unhex(Digit(v)) == Nibble(v) && !IsPunctuation(Digit(v))
  {}

  lemma SignificantPair(x: char, y: char)
    requires !IsPunctuation(x) && !IsPunctuation(y)
    ensures Significant([x, y]) == [x, y]
  {
    assert [x, y][..1] == [x] && [x][..0] == "";
    assert Significant([x]) == [x];
  }

  lemma {:induction false} SignificantHex(d: seq<Byte>)
    ensures Significant(Hex(d)) == Hex(d)
  {
    if d != [] {
      var b := d[|d| - 1];
      SignificantHex(d[..|d| - 1]);
      UnhexDigit(b / 16);
      UnhexDigit(b % 16);
      SignificantPair(Digit(b / 16), Digit(b % 16));
      SignificantConcat(Hex(d[..|d| - 1]), Hex2(b));
    }
  }

  lemma {:induction false} HexConcat(a: seq<Byte>, b: seq<Byte>)
    ensures Hex(a + b) == Hex(a) + Hex(b)
  {
    if b == [] {
      assert a + b == a;
    } else {
      assert (a + b)[..|a + b| - 1] == a + b[..|b| - 1];
      HexConcat(a, b[..|b| - 1]);
      Associative(Hex(a), Hex(b[..|b| - 1]), Hex2(b[|b| - 1]));
    }
  }

  lemma {:induction false} HexLength(d: seq<Byte>)
    ensures |Hex(d)| == 2 * |d|
  {
    if d != [] { HexLength(d[..|d| - 1]); }
  }

  lemma {:induction false} PairsOfHex(d: seq<Byte>)
    requires |Hex(d)| == 2 * |d|
    ensures Pairs(Hex(d), |d|) == Parsed(d)
  {
    if d == [] {
      assert Pairs("", 0) == Parsed([]);
    } else {
      hide Pairs, Hex2;
      var init, b := d[..|d| - 1], d[|d| - 1];
      assert d == init + [b];
      HexLength(init);
      PairsOfHex(init);
      PairsNext(Hex(init), |init|, b);
    }
  }

  lemma PairsNext(t: string, n: nat, b: Byte)
    requires |t| == 2 * n && Pairs(t, n).Parsed?
    ensures Pairs(t + Hex2(b), n + 1) == Parsed(Pairs(t, n).data + [b])
  {
    PairsExtend(t, Hex2(b), n);
    UnhexDigit(b / 16);
    UnhexDigit(b % 16);
    assert b / 16 * 16 + b % 16 == b;
  }

  lemma SignificantDash(a: string, b: string)
    ensures Significant(a + "-" + b) == Significant(a) + Significant(b)
  {
    SignificantConcat(a + "-", b);
    assert (a + "-")[..|a|] == a;
    assert Significant(a + "-") == Significant(a);
  }

  /** Without its dashes the text is the 32 hex digits of the bytes. */
  lemma SignificantText(d: seq<Byte>)
    requires |d| == 16
    ensures Significant(Text(d)) == Hex(d)
  {
    var t4 := Hex(d[0..4]);
    var t6 := t4 + "-" + Hex(d[4..6]);
    var t8 := t6 + "-" + Hex(d[6..8]);
    var t10 := t8 + "-" + Hex(d[8..10]);
    assert d[..16] == d && d[..4] == d[0..4];
    SignificantHex(d[0..4]);
    SignificantGroup(t4, d, 4, 6);
    SignificantGroup(t6, d, 6, 8);
    SignificantGroup(t8, d, 8, 10);
    SignificantGroup(t10, d, 10, 16);
  }

  lemma SignificantGroup(t: string, d: seq<Byte>, i: nat, k: nat)
    requires i <= k <= |d| && Significant(t) == Hex(d[..i])
    ensures Significant(t + "-" + Hex(d[i..k])) == Hex(d[..k])
  {
    SignificantDash(t, Hex(d[i..k]));
    SignificantHex(d[i..k]);
    HexConcat(d[..i], d[i..k]);
    assert d[..i] + d[i..k] == d[..k];
  }

  /** Parsing what `string()` prints gives the same 16 bytes. */
  lemma ParseText(d: seq<Byte>)
    requires |d| == 16
    ensures ParseOf(Text(d)) == Parsed(d)
  {
    SignificantText(d);
    HexLength(d);
    PairsOfHex(d);
  }

  predicate IsHex(c: char) { '0' <= c <= '9' || 'a' <= c <= 'f' || 'A' <= c <= 'F' }

  /** Parsing fails exactly when a complete pair among the first 32 significant
      characters holds something that is not a hex digit. */
  lemma ParseFails(s: string)
    ensures var t := AtMost32(Significant(s));
            ParseOf(s).DomainError? <==> exists k :: 0 <= k < |t| / 2 * 2 && !IsHex(t[k])
  {
    var t := AtMost32(Significant(s));
    PairsFail(t, |t| / 2);
  }

  lemma {:induction false} PairsFail(t: string, n: nat)
    requires 2 * n <= |t|
    ensures Pairs(t, n).DomainError? <==> exists k :: 0 <= k < 2 * n && !IsHex(t[k])
  {
    if n > 0 {
      PairsFail(t, n - 1);
      assert IsHex(t[2 * n - 2]) <==> Unhex(t[2 * n - 2]).Nibble?;
      assert IsHex(t[2 * n - 1]) <==> Unhex(t[2 * n - 1]).Nibble?;
    }
  }

  /** Dashes and braces may stand anywhere. */
  lemma PunctuationIgnored(a: string, ch: char, b: string)
    requires ch in {'-', '{', '}'}
    ensures ParseOf(a + [ch] + b) == ParseOf(a + b)
  {
    SignificantConcat(a + [ch], b);
    SignificantConcat(a, b);
    assert (a + [ch])[..|a|] == a;
    assert Significant(a + [ch]) == Significant(a);
  }

  /** The value of a hex digit of either case. */
  function Value(c: char): nat
    requires IsHex(c)
  {
    if c <= '9' then c as int - '0' as int
    else if c <= 'F' then c as int - 'A' as int + 10
    else c as int - 'a' as int + 10
  }

  lemma {:induction false} NothingSkipped(s: string)
    requires '-' !in s && '{' !in s && '}' !in s
    ensures Significant(s) == s
  {
    if s != "" {
      assert s[|s| - 1] in s && s == s[..|s| - 1] + [s[|s| - 1]];
      NothingSkipped(s[..|s| - 1]);
    }
  }

  lemma {:induction false} PairsValue(t: string, n: nat, j: nat)
    requires 2 * n <= |t| && j < n && Pairs(t, n).Parsed?
    ensures IsHex(t[2 * j]) && IsHex(t[2 * j + 1])
    ensures Pairs(t, n).data[j] == 16 * Value(t[2 * j]) + Value(t[2 * j + 1])
  {
    if j < n - 1 { PairsValue(t, n - 1, j); }
  }

  /** Without those, digits are read in pairs: any other character in a complete
      pair of the first 32 is an error, every byte has the value of its two
      digits, and missing bytes are zero. */
  lemma DigitsRead(s: string, j: nat)
    requires '-' !in s && '{' !in s && '}' !in s && j < 16
    ensures var n := if |s| >= 32 then 16 else |s| / 2;
            && (ParseOf(s).DomainError? <==> exists k :: 0 <= k < 2 * n && !IsHex(s[k]))
            && (ParseOf(s).Parsed? ==>
                  && |ParseOf(s).data| == 16
                  && (j < n ==> IsHex(s[2 * j]) && IsHex(s[2 * j + 1]))
                  && ParseOf(s).data[j] == if j < n then 16 * Value(s[2 * j]) + Value(s[2 * j + 1]) else 0)
  {
    NothingSkipped(s);
    var t := AtMost32(s);
    PairsFail(t, |t| / 2);
    if Pairs(t, |t| / 2).Parsed? && j < |t| / 2 { PairsValue(t, |t| / 2, j); }
  }

  /** The printed text: 36 characters, dashes at 8, 13, 18 and 23, and lower-case
      hex digits elsewhere. */
  lemma TextShape(d: seq<Byte>, i: nat)
    requires |d| == 16 && i < 36
    ensures |Text(d)| == 36
    ensures if i in {8, 13, 18, 23} then Text(d)[i] == '-'
            else '0' <= Text(d)[i] <= '9' || 'a' <= Text(d)[i] <= 'f'
  {
    HexDigits(d[0..4]);
    HexDigits(d[4..6]);
    HexDigits(d[6..8]);
    HexDigits(d[8..10]);
    HexDigits(d[10..16]);
  }

  lemma {:induction false} HexDigits(d: seq<Byte>)
    ensures |Hex(d)| == 2 * |d|
    ensures forall i :: 0 <= i < |Hex(d)| ==> '0' <= Hex(d)[i] <= '9' || 'a' <= Hex(d)[i] <= 'f'
  {
    if d != [] { HexDigits(d[..|d| - 1]); }
  }

  function Lower(c: char): char {
    if 'A' <= c <= 'Z' then (c as int + 32) as char else c
  }

  function LowerCase(s: string): (r: string)
    ensures |r| == |s| && forall i :: 0 <= i < |s| ==> r[i] == Lower(s[i])
  {
    seq(|s|, i requires 0 <= i < |s| => Lower(s[i]))
  }

  lemma {:induction false} SignificantLower(s: string)
    ensures Significant(LowerCase(s)) == LowerCase(Significant(s))
  {
    if s != "" {
      SignificantLower(s[..|s| - 1]);
      assert LowerCase(s)[..|s| - 1] == LowerCase(s[..|s| - 1]);
      assert IsPunctuation(Lower(s[|s| - 1])) <==> IsPunctuation(s[|s| - 1]);
      var front := Significant(s[..|s| - 1]);
      assert LowerCase(front + [s[|s| - 1]]) == LowerCase(front) + [Lower(s[|s| - 1])];
    }
  }

  lemma {:induction false} PairsLower(t: string, n: nat)
    requires 2 * n <= |t|
    ensures Pairs(LowerCase(t), n) == Pairs(t, n)
  {
    if n > 0 {
      PairsLower(t, n - 1);
      assert Unhex(Lower(t[2 * n - 2])) == Unhex(t[2 * n - 2]);
      assert Unhex(Lower(t[2 * n - 1])) == Unhex(t[2 * n - 1]);
    }
  }

  /** Upper and lower case digits mean the same. */
  lemma ParseIgnoresCase(s: string)
    ensures ParseOf(LowerCase(s)) == ParseOf(s)
  {
    var t := AtMost32(Significant(s));
    SignificantLower(s);
    assert AtMost32(LowerCase(Significant(s))) == LowerCase(t);
    PairsLower(t, |t| / 2);
  }

  method RoundTrip(data: seq<Byte>) returns (r: Parsed)
    requires |data| == 16
    ensures r == Parsed(data)
  {
    var s := ToString(data);
    ParseText(data);
    r := Parse(s);
  }

  // ----------------------------------------------------------------- order

  /** Lexicographic order of bytes, as on std::array. */
  predicate LessBytes(a: seq<Byte>, b: seq<Byte>) {
    b != [] && (a == [] || a[0] < b[0] || (a[0] == b[0] && LessBytes(a[1..], b[1..])))
  }

  /** Lexicographic order of characters, as on std::string. */
  predicate LessText(a: string, b: string) {
    b != "" && (a == "" || a[0] < b[0] || (a[0] == b[0] && LessText(a[1..], b[1..])))
  }

  lemma {:induction false} LessTextConcat(a: string, b: string, a': string, b': string)
    requires |a| == |a'|
    ensures LessText(a + b, a' + b') <==> LessText(a, a') || (a == a' && LessText(b, b'))
  {
    if a == "" {
      assert a + b == b && a' + b' == b';
    } else {
      assert (a + b)[1..] == a[1..] + b && (a' + b')[1..] == a'[1..] + b';
      LessTextConcat(a[1..], b, a'[1..], b');
      assert a == [a[0]] + a[1..] && a' == [a'[0]] + a'[1..];
    }
  }

  lemma {:induction false} LessBytesSnoc(a: seq<Byte>, x: Byte, b: seq<Byte>, y: Byte)
    requires |a| == |b|
    ensures LessBytes(a + [x], b + [y]) <==> LessBytes(a, b) || (a == b && x < y)
  {
    if a == [] {
      assert a + [x] == [x] && b + [y] == [y];
      assert [x][1..] == [] && [y][1..] == [];
    } else {
      assert (a + [x])[1..] == a[1..] + [x] && (b + [y])[1..] == b[1..] + [y];
      LessBytesSnoc(a[1..], x, b[1..], y);
      assert a == [a[0]] + a[1..] && b == [b[0]] + b[1..];
    }
  }

  lemma DigitsIncrease(v: nat, w: nat)
    requires v < 16 && w < 16
    ensures Digit(v) < Digit(w) <==> v < w
    ensures Digit(v) == Digit(w) <==> v == w
  {}

  lemma LessPair(a: char, b: char, c: char, d: char)
    ensures LessText([a, b], [c, d]) <==> a < c || (a == c && b < d)
  {
    assert [a, b][1..] == [b] && [c, d][1..] == [d];
    assert LessText([b], [d]) <==> b < d by { assert [b][1..] == "" && [d][1..] == ""; }
    assert [a, b][0] == a && [c, d][0] == c;
  }

  lemma Hex2Order(x: Byte, y: Byte)
    ensures LessText(Hex2(x), Hex2(y)) <==> x < y
    ensures Hex2(x) == Hex2(y) <==> x == y
  {
    DigitsIncrease(x / 16, y / 16);
    DigitsIncrease(x % 16, y % 16);
    LessPair(Digit(x / 16), Digit(x % 16), Digit(y / 16), Digit(y % 16));
    assert Hex2(x) == Hex2(y) ==> Hex2(x)[0] == Hex2(y)[0] && Hex2(x)[1] == Hex2(y)[1];
  }

  lemma {:induction false} NotLessSelf(c: string)
    ensures !LessText(c, c)
  {
    if c != "" { NotLessSelf(c[1..]); }
  }

  lemma ConcatEqual(a: string, x: string, b: string, y: string)
    requires |a| == |b|
    ensures a + x == b + y <==> a == b && x == y
  {
    assert (a + x)[..|a|] == a && (b + y)[..|b|] == b;
    assert (a + x)[|a|..] == x && (b + y)[|b|..] == y;
  }

  /** One more byte on both sides, with the same dash or none after it. */
  lemma WrittenOrderStep(a: string, x: Byte, b: string, y: Byte, dash: string)
    requires |a| == |b|
    ensures LessText(a + Hex2(x) + dash, b + Hex2(y) + dash) <==> LessText(a, b) || (a == b && x < y)
    ensures a + Hex2(x) + dash == b + Hex2(y) + dash <==> a == b && x == y
  {
    LessTextConcat(a + Hex2(x), dash, b + Hex2(y), dash);
    NotLessSelf(dash);
    LessTextConcat(a, Hex2(x), b, Hex2(y));
    Hex2Order(x, y);
    ConcatEqual(a + Hex2(x), dash, b + Hex2(y), dash);
    ConcatEqual(a, Hex2(x), b, Hex2(y));
  }

  lemma SnocEqual(a: seq<Byte>, x: Byte, b: seq<Byte>, y: Byte)
    requires |a| == |b|
    ensures a + [x] == b + [y] <==> a == b && x == y
  {
    assert (a + [x])[..|a|] == a && (b + [y])[..|b|] == b;
    assert (a + [x])[|a|] == x && (b + [y])[|b|] == y;
  }

  lemma NothingLess()
    ensures !LessText("", "") && !LessBytes([], [])
  {}

  lemma {:induction false} WrittenOrder(u: seq<Byte>, v: seq<Byte>, k: nat)
    requires k <= |u| == |v|
    ensures LessText(Written(u, k), Written(v, k)) <==> LessBytes(u[..k], v[..k])
    ensures Written(u, k) == Written(v, k) <==> u[..k] == v[..k]
  {
    hide LessText, LessBytes, Hex2;
    if k == 0 {
      NothingLess();
      assert u[..0] == [] && v[..0] == [];
    } else {
      WrittenOrder(u, v, k - 1);
      WrittenLength(u, k - 1);
      WrittenLength(v, k - 1);
      WrittenOrderStep(Written(u, k - 1), u[k - 1], Written(v, k - 1), v[k - 1], if DashAfter(k) then "-" else "");
      assert u[..k] == u[..k - 1] + [u[k - 1]] && v[..k] == v[..k - 1] + [v[k - 1]];
      LessBytesSnoc(u[..k - 1], u[k - 1], v[..k - 1], v[k - 1]);
      SnocEqual(u[..k - 1], u[k - 1], v[..k - 1], v[k - 1]);
    }
  }

  /** The text form orders UUIDs exactly as their bytes do. */
  lemma TextKeepsOrder(u: seq<Byte>, v: seq<Byte>)
    requires |u| == 16 && |v| == 16
    ensures LessBytes(u, v) <==> LessText(Text(u), Text(v))
    ensures u == v <==> Text(u) == Text(v)
  {
    WrittenIsText(u);
    WrittenIsText(v);
    WrittenOrder(u, v, 16);
    assert u[..16] == u && v[..16] == v;
  }
}
