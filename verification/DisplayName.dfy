/**
 The label a headset is shown under (`display_name` in src/headset.rs): its name without control
 characters, cut on a character boundary of its UTF-8 encoding (section 3 of RFC 3629) so that it
 fits in the kernel's field.
 */
module DisplayNames {
  import opened Prelude
  import opened Frame

  const MAX_BYTES: nat := 127

  predicate IsControl(c: char) {
    c as int < 0x20 || 0x7f <= c as int <= 0x9f
  }

  predicate IsWhitespace(c: char) {
    var n := c as int;
    || 0x09 <= n <= 0x0d || n == 0x20 || n == 0x85 || n == 0xa0 || n == 0x1680
    || 0x2000 <= n <= 0x200a || n == 0x2028 || n == 0x2029 || n == 0x202f || n == 0x205f || n == 0x3000
  }

  predicate IsBlank(s: string) {
    forall c <- s :: IsWhitespace(c)
  }

  /** A byte that goes on with a character begun before it. */
  predicate IsContinuation(b: byte) {
    0x80 <= b < 0xc0
  }

  function Encode(c: char): (bytes: seq<byte>)
    ensures 1 <= |bytes| <= 4 && !IsContinuation(bytes[0])
    ensures forall i :: 1 <= i < |bytes| ==> IsContinuation(bytes[i])
  {
    var n := c as int;
    if n < 0x80 then [n]
    else if n < 0x800 then [0xc0 + n / 0x40, 0x80 + n % 0x40]
    else if n < 0x10000 then [0xe0 + n / 0x1000, 0x80 + n / 0x40 % 0x40, 0x80 + n % 0x40]
    else [0xf0 + n / 0x40000, 0x80 + n / 0x1000 % 0x40, 0x80 + n / 0x40 % 0x40, 0x80 + n % 0x40]
  }

  /** The scalar value whose encoding `bytes` starts with (the table in section 3 of RFC 3629, read backwards). */
  function Decode(bytes: seq<nat>): Option<nat> {
    if bytes == [] then None
    else if bytes[0] < 0x80 then Some(bytes[0])
    else if 2 <= |bytes| && 0xc0 <= bytes[0] < 0xe0 && 0x80 <= bytes[1] then
      Some((bytes[0] - 0xc0) * 0x40 + bytes[1] - 0x80)
    else if 3 <= |bytes| && 0xe0 <= bytes[0] < 0xf0 && 0x80 <= bytes[1] && 0x80 <= bytes[2] then
      Some(((bytes[0] - 0xe0) * 0x40 + bytes[1] - 0x80) * 0x40 + bytes[2] - 0x80)
    else if 4 <= |bytes| && 0xf0 <= bytes[0] && 0x80 <= bytes[1] && 0x80 <= bytes[2] && 0x80 <= bytes[3] then
      Some((((bytes[0] - 0xf0) * 0x40 + bytes[1] - 0x80) * 0x40 + bytes[2] - 0x80) * 0x40 + bytes[3] - 0x80)
    else None
  }

  /** An encoding is read back whatever follows it, and is the shortest there is. */
  lemma {:induction false} EncodingIsReadBack(c: char, rest: seq<byte>)
    ensures Decode(Encode(c) + rest) == Some(c as int)
    ensures var n := c as int;
      |Encode(c)| == if n < 0x80 then 1 else if n < 0x800 then 2 else if n < 0x10000 then 3 else 4
  {
    var n, bytes := c as int, Encode(c) + rest;
    assert forall i :: 0 <= i < |Encode(c)| ==> bytes[i] == Encode(c)[i];
    if 0x10000 <= n {
      assert n / 0x40 == (n / 0x1000) * 0x40 + n / 0x40 % 0x40;
      assert n / 0x1000 == (n / 0x40000) * 0x40 + n / 0x1000 % 0x40;
    } else if 0x800 <= n {
      assert n / 0x40 == (n / 0x1000) * 0x40 + n / 0x40 % 0x40;
    }
  }

  function EncodeAll(s: string): seq<byte> {
    if s == "" then [] else Encode(s[0]) + EncodeAll(s[1..])
  }

  /** Whether a character starts, or the string ends, at byte `i`. */
  predicate IsCharBoundary(bytes: seq<byte>, i: nat)
    requires i <= |bytes|
  {
    i == 0 || i == |bytes| || !IsContinuation(bytes[i])
  }

  function WithoutControls(name: string): string {
    if name == "" then ""
    else (if IsControl(name[0]) then "" else [name[0]]) + WithoutControls(name[1..])
  }

  /** The first `end` bytes of a string, as a string: `end` has to be a boundary. */
  function Truncate(s: string, end: nat): (t: string)
    requires end <= |EncodeAll(s)| && IsCharBoundary(EncodeAll(s), end)
    ensures t <= s && EncodeAll(t) == EncodeAll(s)[..end]
  {
    if end == 0 then
      ""
    else
      assert |Encode(s[0])| <= end by { BoundaryPastFirst(s, end); }
      assert IsCharBoundary(EncodeAll(s[1..]), end - |Encode(s[0])|) by { BoundaryPastFirst(s, end); }
      [s[0]] + Truncate(s[1..], end - |Encode(s[0])|)
  }

  /** Past its first character, the boundaries of a string are those of the rest. */
  lemma {:induction false} BoundaryPastFirst(s: string, i: nat)
    requires s != "" && 0 < i <= |EncodeAll(s)|
    ensures IsCharBoundary(EncodeAll(s), i)
       <==> |Encode(s[0])| <= i && IsCharBoundary(EncodeAll(s[1..]), i - |Encode(s[0])|)
  {
  }

  /** The boundaries of a string are the lengths of its prefixes, all of them. */
  lemma {:induction false} BoundariesArePrefixes(s: string, n: nat)
    requires n <= |s|
    ensures |EncodeAll(s[..n])| <= |EncodeAll(s)|
    ensures IsCharBoundary(EncodeAll(s), |EncodeAll(s[..n])|)
    decreases |s|
  {
    if n == 0 {
    } else {
      assert s[..n][0] == s[0] && s[..n][1..] == s[1..][..n - 1];
      BoundariesArePrefixes(s[1..], n - 1);
      BoundaryPastFirst(s, |EncodeAll(s[..n])|);
    }
  }

  /** The prefix of `n` characters fits, and one more would not. */
  predicate IsLongestFit(s: string, n: nat) {
    && n <= |s|
    && |EncodeAll(s[..n])| <= MAX_BYTES
    && (n < |s| ==> |EncodeAll(s[..n + 1])| > MAX_BYTES)
  }

  lemma {:induction false} LongerPrefixesAreLonger(s: string, m: nat, n: nat)
    requires m < n <= |s|
    ensures |EncodeAll(s[..m])| < |EncodeAll(s[..n])|
    decreases m
  {
    assert s[..n][0] == s[0] && s[..n][1..] == s[1..][..n - 1];
    if m == 0 {
    } else {
      assert s[..m][0] == s[0] && s[..m][1..] == s[1..][..m - 1];
      LongerPrefixesAreLonger(s[1..], m - 1, n - 1);
    }
  }

  /** There is only one such prefix. */
  lemma {:induction false} LongestFitIsUnique(s: string, m: nat, n: nat)
    requires IsLongestFit(s, m) && IsLongestFit(s, n)
    ensures m == n
  {
    if m < n {
      LongestIsLonger(s, m, n);
    } else if n < m {
      LongestIsLonger(s, n, m);
    }
  }

  lemma {:induction false} LongestIsLonger(s: string, m: nat, n: nat)
    requires IsLongestFit(s, m) && m < n <= |s|
    ensures |EncodeAll(s[..n])| > MAX_BYTES
  {
    if m + 1 < n {
      LongerPrefixesAreLonger(s, m + 1, n);
    }
  }

  /**
   The label: the longest prefix of whole characters that fits of the
   name without its control characters, or a stand-in if that is blank.
   */
  method DisplayName(name: string) returns (shown: string)
    ensures exists n: nat ::
      && IsLongestFit(WithoutControls(name), n)
      && shown == if IsBlank(WithoutControls(name)[..n]) then "Headset" else WithoutControls(name)[..n]
    ensures 1 <= |EncodeAll(shown)| <= MAX_BYTES
  {
    var clean := WithoutControls(name);
    var bytes := EncodeAll(clean);
    var end: nat := if |bytes| <= MAX_BYTES then |bytes| else MAX_BYTES;
    while !IsCharBoundary(bytes, end)
      invariant end <= |bytes| && end <= MAX_BYTES
      invariant forall i: nat :: end < i <= |bytes| && IsCharBoundary(bytes, i) ==> MAX_BYTES < i
      decreases end
    {
      end := end - 1;
    }
    shown := Truncate(clean, end);
    assert shown == clean[..|shown|];
    LongestFitFound(clean, end, |shown|);
    if IsBlank(shown) {
      StandInFits();
      shown := "Headset";
    } else {
      assert EncodeAll(shown) != [];
    }
  }

  /** A fitting boundary with no other fitting one after it is the end of the longest fit. */
  lemma {:induction false} LongestFitFound(s: string, end: nat, n: nat)
    requires n <= |s| && |EncodeAll(s[..n])| == end <= MAX_BYTES
    requires forall i: nat :: end < i <= |EncodeAll(s)| && IsCharBoundary(EncodeAll(s), i) ==> MAX_BYTES < i
    ensures IsLongestFit(s, n)
  {
    if n < |s| {
      BoundariesArePrefixes(s, n + 1);
      LongerPrefixesAreLonger(s, n, n + 1);
    }
  }

  lemma {:induction false} StandInFits()
    ensures |EncodeAll("Headset")| == 7
  {
    assert EncodeAll("Headset") == [72, 101, 97, 100, 115, 101, 116];
  }

  /** Controls go one by one, in place: what is kept of a name is what is kept of its parts, in order. */
  lemma {:induction false} ControlsGoInPlace(name: string, rest: string)
    ensures WithoutControls(name + rest) == WithoutControls(name) + WithoutControls(rest)
  {
    if name == "" {
      assert name + rest == rest;
    } else {
      assert (name + rest)[0] == name[0] && (name + rest)[1..] == name[1..] + rest;
      ControlsGoInPlace(name[1..], rest);
    }
  }

  /** A character is kept exactly if it is no control, between what is left on either side of it. */
  lemma {:induction false} TheOthersStayInPlace(name: string, i: nat)
    requires i < |name|
    ensures WithoutControls(name)
         == WithoutControls(name[..i]) + (if IsControl(name[i]) then "" else [name[i]]) + WithoutControls(name[i + 1..])
  {
    assert name == name[..i] + name[i..];
    assert name[i..][0] == name[i] && name[i..][1..] == name[i + 1..];
    ControlsGoInPlace(name[..i], name[i..]);
  }

  /** No control character is left, and a name without any stays as it is. */
  lemma {:induction false} ControlsAreAllThatGoes(name: string)
    ensures forall c <- WithoutControls(name) :: !IsControl(c)
    ensures (forall c <- name :: !IsControl(c)) ==> WithoutControls(name) == name
  {
    if name == "" {
    } else {
      assert name == [name[0]] + name[1..];
      ControlsAreAllThatGoes(name[1..]);
    }
  }
}
