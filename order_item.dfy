/**
 * The item sent by the order check: `itemInput.value.trim() || 'something'`.
 * `trim` strips ECMAScript white space and line terminators from both ends;
 * an empty result is falsy and is replaced by the default item.
 */
module OrderItem {

  /** ECMAScript WhiteSpace and LineTerminator code points, which `trim` removes. */
  predicate IsTrimmable(c: char) {
    var n := c as int;
    n == 0x09 || n == 0x0A || n == 0x0B || n == 0x0C || n == 0x0D || n == 0x20
    || n == 0xA0 || n == 0x1680 || (0x2000 <= n <= 0x200A)
    || n == 0x2028 || n == 0x2029 || n == 0x202F || n == 0x205F
    || n == 0x3000 || n == 0xFEFF
  }

  predicate AllTrimmable(s: string) {
    forall k :: 0 <= k < |s| ==> IsTrimmable(s[k])
  }

  /** The number of trimmable characters at the start of `s`. */
  function LeadingCount(s: string): (n: nat)
    ensures n <= |s| && AllTrimmable(s[..n])
    ensures n < |s| ==> !IsTrimmable(s[n])
  {
    if s == [] || !IsTrimmable(s[0]) then 0
    else 1 + LeadingCount(s[1..])
  }

  /** The number of trimmable characters at the end of `s`. */
  function TrailingCount(s: string): (n: nat)
    ensures n <= |s| && AllTrimmable(s[|s| - n..])
    ensures n < |s| ==> !IsTrimmable(s[|s| - 1 - n])
  {
    if s == [] || !IsTrimmable(s[|s| - 1]) then 0
    else 1 + TrailingCount(s[..|s| - 1])
  }

  /** `String.prototype.trim`. */
  function Trim(s: string): (r: string)
    ensures |r| <= |s|
    ensures r != [] ==> !IsTrimmable(r[0]) && !IsTrimmable(r[|r| - 1])
  {
    var a := LeadingCount(s);
    var rest := s[a..];
    rest[..|rest| - TrailingCount(rest)]
  }

  /**
   * The trimmed text is a slice of the input with only trimmable characters
   * cut off around it, and it neither starts nor ends with one.
   */
  lemma TrimIsSlice(s: string)
    ensures exists i, j ::
      0 <= i <= j <= |s| && Trim(s) == s[i..j] && AllTrimmable(s[..i]) && AllTrimmable(s[j..])
  {
    var a := LeadingCount(s);
    var rest := s[a..];
    var b := TrailingCount(rest);
    var j := |s| - b;
    assert rest[..|rest| - b] == s[a..j];
    assert rest[|rest| - b..] == s[j..];
  }

  /** Only an input made of trimmable characters trims to the empty string. */
  lemma TrimEmptyIff(s: string)
    ensures Trim(s) == [] <==> AllTrimmable(s)
  {
    var a := LeadingCount(s);
    if a < |s| {
      var rest := s[a..];
      var b := TrailingCount(rest);
      assert !IsTrimmable(rest[0]);
    } else {
      assert s[..a] == s;
    }
  }

  /** Trimming a trimmed string changes nothing. */
  lemma TrimIdempotent(s: string)
    ensures Trim(Trim(s)) == Trim(s)
  {
    TrimIsSlice(s);
    var t := Trim(s);
    if t != [] {
      assert LeadingCount(t) == 0;
      assert t[0..] == t;
      assert TrailingCount(t) == 0;
    }
  }

  const DefaultItem := "something"

  /** The order item: the trimmed input, or the default item when that is empty. */
  function OrderItemFor(input: string): (item: string)
    ensures item != []
  {
    var t := Trim(input);
    if t == "" then DefaultItem else t
  }

  /**
   * The default is used exactly when the input holds nothing but white
   * space; otherwise the item is the trimmed input.
   */
  lemma OrderItemDefault(input: string)
    ensures AllTrimmable(input) ==> OrderItemFor(input) == DefaultItem
    ensures !AllTrimmable(input) ==> OrderItemFor(input) == Trim(input) && Trim(input) != []
  {
    TrimEmptyIff(input);
  }
}
