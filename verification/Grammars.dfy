/** The grammars the wire's schema states for the names a fragment or a ledger line
    may carry (`client/src/wire.ts`). */
module Grammars {
  import opened CodeUnits
  import opened Splitting

  const SLASH: Unit := 0x2F

  predicate IsHex(c: char) { '0' <= c <= '9' || 'a' <= c <= 'f' }

  predicate IsHash(s: string) {
    |s| == 64 && forall i :: 0 <= i < |s| ==> IsHex(s[i])
  }

  /** A uuid, in lower case and with its hyphens. */
  predicate IsRunId(s: string) {
    |s| == 36 && forall i :: 0 <= i < 36 ==> if i in {8, 13, 18, 23} then s[i] == '-' else IsHex(s[i])
  }

  predicate IsControl(u: Unit) { u < 0x20 || 0x7F <= u < 0xA0 }

  predicate IsWhite(u: Unit) {
    0x09 <= u <= 0x0D || u == 0x20 || u == 0x85 || u == 0xA0 || u == 0x1680 || 0x2000 <= u <= 0x200A
    || u == 0x2028 || u == 0x2029 || u == 0x202F || u == 0x205F || u == 0x3000
  }

  /** One name of an address: no backslash, colon or control, not ending in a dot or
      white space. */
  predicate IsSegment(s: Text) {
    && s != []
    && (forall i :: 0 <= i < |s| ==> s[i] != 0x5C && s[i] != 0x3A && !IsControl(s[i]))
    && s[|s| - 1] != 0x2E && !IsWhite(s[|s| - 1])
  }

  predicate IsAddress(t: Text) {
    forall i :: 0 <= i < |SplitOn(t, SLASH)| ==> IsSegment(SplitOn(t, SLASH)[i])
  }
}
