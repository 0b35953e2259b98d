/**
 * The JIS X 0201 character table of the assembler's own helper and its two
 * operations: conversion of one character, and the range check of a string.
 */
module JisX0201 {
  import opened Common

  /** The table: `a`..`z`, `{`, `|`, `}` and the overline. */
  const Table: map<char, int> := map[
    'a' := 0x61, 'b' := 0x62, 'c' := 0x63, 'd' := 0x64, 'e' := 0x65, 'f' := 0x66, 'g' := 0x67,
    'h' := 0x68, 'i' := 0x69, 'j' := 0x6A, 'k' := 0x6B, 'l' := 0x6C, 'm' := 0x6D, 'n' := 0x6E,
    'o' := 0x6F, 'p' := 0x70, 'q' := 0x71, 'r' := 0x72, 's' := 0x73, 't' := 0x74, 'u' := 0x75,
    'v' := 0x76, 'w' := 0x77, 'x' := 0x78, 'y' := 0x79, 'z' := 0x7A, '{' := 0x7B, '|' := 0x7C,
    '}' := 0x7D, '\U{203E}' := 0x7E]

  /** Every code in the table lies in 0x61..0x7E, and no two characters share one. */
  lemma TableCodes()
    ensures forall c :: c in Table ==> 0x61 <= Table[c] <= 0x7E
    ensures forall c, d :: c in Table && d in Table && c != d ==> Table[c] != Table[d]
  {
    TableShape();
  }

  /** Each entry but the overline maps a character to its own code point. */
  lemma TableShape()
    ensures forall c :: c in Table ==> Table[c] == if c == '\U{203E}' then 0x7E else c as int
    ensures forall c :: c in Table ==> c == '\U{203E}' || 0x61 <= c as int <= 0x7D
  {
  }

  /** `convert`: a one-character string with a table entry gives its code; anything else throws. */
  function Convert(ch: string): (r: Outcome<int>)
    ensures r.Ok? <==> |ch| == 1 && ch[0] in Table
    ensures r.Ok? ==> 0x61 <= r.value <= 0x7E && r.value == Table[ch[0]]
  {
    TableCodes();
    if |ch| != 1 then Crash
    else if ch[0] !in Table then Crash
    else Ok(Table[ch[0]])
  }

  /** Every character of `s` has a table entry. */
  predicate InRange(s: string)
  {
    forall i :: 0 <= i < |s| ==> s[i] in Table
  }

  /** `isInRange`: scans the string and stops at the first character without an entry. */
  method IsInRange(str: string) returns (r: bool)
    ensures r <==> InRange(str)
    ensures r <==> forall i :: 0 <= i < |str| ==> Convert([str[i]]).Ok?
  {
    var i := 0;
    while i < |str|
      invariant 0 <= i <= |str|
      invariant forall j :: 0 <= j < i ==> str[j] in Table
    {
      if str[i] !in Table {
        assert Convert([str[i]]).Crash?;
        return false;
      }
      i := i + 1;
    }
    return true;
  }

  /** The empty string is in range; a string is in range exactly when both of its parts are. */
  lemma InRangeConcat(s: string, t: string)
    ensures InRange([])
    ensures InRange(s + t) <==> InRange(s) && InRange(t)
  {
    if InRange(s) && InRange(t) {
      forall i | 0 <= i < |s + t| ensures (s + t)[i] in Table {
        if i >= |s| { assert (s + t)[i] == t[i - |s|]; }
      }
    }
    if InRange(s + t) {
      forall i | 0 <= i < |t| ensures t[i] in Table { assert (s + t)[|s| + i] == t[i]; }
      forall i | 0 <= i < |s| ensures s[i] in Table { assert (s + t)[i] == s[i]; }
    }
  }
}
