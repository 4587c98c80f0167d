/**
 * Rust's `usize::from_str_radix(s, 16)` on a 64-bit target, the parser
 * `Debugger::parse_addr` hands the address text to.  The library walks the
 * digits left to right with checked multiply and checked add; here that walk
 * is `Accumulate`, and its contract relates it to the positional value
 * `HexValue` of the digit string.
 */
module Radix {
  import opened Wrappers

  /** The largest value of a 64-bit `usize`. */
  const USIZE_MAX: nat := 0xFFFF_FFFF_FFFF_FFFF

  /** What `char::to_digit(16)` accepts: 0-9, a-f and A-F. */
  predicate IsHexDigit(c: char) {
    '0' <= c <= '9' || 'a' <= c <= 'f' || 'A' <= c <= 'F'
  }

  function DigitValue(c: char): (d: nat)
    requires IsHexDigit(c)
    ensures d < 16
  {
    if '0' <= c <= '9' then c as int - '0' as int
    else if 'a' <= c <= 'f' then c as int - 'a' as int + 10
    else c as int - 'A' as int + 10
  }

  predicate AllHex(s: string) {
    forall i :: 0 <= i < |s| ==> IsHexDigit(s[i])
  }

  /** The positional value of a string of hex digits, most significant digit first. */
  function HexValue(s: string): nat
    requires AllHex(s)
  {
    if s == [] then 0 else 16 * HexValue(s[..|s| - 1]) + DigitValue(s[|s| - 1])
  }

  lemma AllHexSplit(p: string, s: string)
    ensures AllHex(p + s) <==> AllHex(p) && AllHex(s)
  {
    if AllHex(p) && AllHex(s) {
      forall i | 0 <= i < |p + s| ensures IsHexDigit((p + s)[i]) {
        if i >= |p| { assert (p + s)[i] == s[i - |p|]; }
      }
    }
    if AllHex(p + s) {
      forall i | 0 <= i < |p| ensures IsHexDigit(p[i]) {
        assert p[i] == (p + s)[i];
      }
      forall i | 0 <= i < |s| ensures IsHexDigit(s[i]) {
        assert s[i] == (p + s)[|p| + i];
      }
    }
  }

  /** Appending digits never makes the value smaller. */
  lemma {:induction false} HexValueGrows(p: string, s: string)
    requires AllHex(p) && AllHex(s)
    ensures AllHex(p + s) && HexValue(p + s) >= HexValue(p)
    decreases |s|
  {
    AllHexSplit(p, s);
    if s == [] {
      assert p + s == p;
    } else {
      var init := s[..|s| - 1];
      AllHexSplit(init, [s[|s| - 1]]);
      assert init + [s[|s| - 1]] == s;
      HexValueGrows(p, init);
      assert (p + s)[..|p + s| - 1] == p + init;
      assert (p + s)[|p + s| - 1] == s[|s| - 1];
    }
  }

  /**
   * The digit loop of `from_str_radix`: `acc` is the value of the digits
   * already read (`done`), and each step multiplies by 16 and adds the next
   * digit, giving up on a non-digit or when either operation would exceed
   * `USIZE_MAX`.
   */
  function Accumulate(ghost done: string, acc: nat, rest: string): (r: Option<nat>)
    requires AllHex(done) && acc == HexValue(done) && acc <= USIZE_MAX
    ensures AllHex(done + rest) && HexValue(done + rest) <= USIZE_MAX <==> r.Some?
    ensures r.Some? ==> r.value == HexValue(done + rest)
    decreases |rest|
  {
    AllHexSplit(done, rest);
    if rest == [] then
      assert done + rest == done;
      Some(acc)
    else if !IsHexDigit(rest[0]) then
      None
    else
      var next := done + [rest[0]];
      AllHexSplit(done, [rest[0]]);
      assert next[..|next| - 1] == done;
      assert next + rest[1..] == done + rest;
      AllHexSplit(next, rest[1..]);
      if 16 * acc > USIZE_MAX then
        (if AllHex(rest) then HexValueGrows(next, rest[1..]); None else None)
      else if 16 * acc + DigitValue(rest[0]) > USIZE_MAX then
        (if AllHex(rest) then HexValueGrows(next, rest[1..]); None else None)
      else
        Accumulate(next, 16 * acc + DigitValue(rest[0]), rest[1..])
  }

  /** The digits `from_str_radix` reads: one leading `+` is dropped. */
  function Unsigned(src: string): string {
    if |src| > 0 && src[0] == '+' then src[1..] else src
  }

  /**
   * `usize::from_str_radix(src, 16).ok()`.  An empty string is refused, a lone
   * `+` or `-` is refused, one leading `+` is skipped and a leading `-` is an
   * invalid digit for an unsigned type.
   */
  function FromStrRadix16(src: string): (r: Option<nat>)
    ensures r.Some? <==> Unsigned(src) != [] && AllHex(Unsigned(src)) && HexValue(Unsigned(src)) <= USIZE_MAX
    ensures r.Some? ==> r.value == HexValue(Unsigned(src))
  {
    if src == [] then None
    else if (src[0] == '+' || src[0] == '-') && |src| == 1 then
      assert !IsHexDigit(src[0]);
      None
    else
      assert [] + Unsigned(src) == Unsigned(src);
      Accumulate([], 0, Unsigned(src))
  }
}
