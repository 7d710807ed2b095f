/**
 * JavaScript strings as the source manipulates them: sequences of UTF-16 code
 * units. `charCodeAt`, `slice` and `length` all count code units, so the model
 * does too; the source's literals are converted with `Ascii`.
 */
module JsText {

  type CodeUnit = n: int | 0 <= n < 0x1_0000

  type JsString = seq<CodeUnit>

  predicate IsAscii(s: string)
  {
    forall i :: 0 <= i < |s| ==> s[i] as int < 0x80
  }

  /**
   * The JavaScript string an ASCII literal of the source denotes: one code
   * unit per character, with the same value. Every literal the model needs is
   * ASCII.
   */
  function Ascii(s: string): (r: JsString)
    requires IsAscii(s)
    ensures |r| == |s| && forall i :: 0 <= i < |s| ==> r[i] == s[i] as int
  {
    seq(|s|, i requires 0 <= i < |s| => s[i] as int)
  }

  /** A character absent from an ASCII literal is absent from the string it denotes. */
  lemma AsciiAbsent(s: string, c: char)
    requires IsAscii(s) && c !in s
    ensures (c as int) !in Ascii(s)
  {
  }

  /** `s.includes(p)`: p occurs in s as a contiguous run; the empty string occurs everywhere. */
  predicate Contains(s: JsString, p: JsString)
    ensures |p| == 0 ==> Contains(s, p)
    ensures Contains(s, p) ==> |p| <= |s|
  {
    p <= s || (|s| > 0 && Contains(s[1..], p))
  }

  /** p occurs in s starting at offset i. */
  predicate OccursAt(s: JsString, p: JsString, i: int)
  {
    0 <= i && i + |p| <= |s| && s[i..i + |p|] == p
  }

  /** `includes` agrees with the existence of an occurrence at some offset. */
  lemma {:induction false} ContainsAt(s: JsString, p: JsString)
    ensures Contains(s, p) <==> exists i :: OccursAt(s, p, i)
  {
    if p <= s {
      assert OccursAt(s, p, 0);
    } else if |s| == 0 {
      assert forall i :: !OccursAt(s, p, i);
    } else {
      ContainsAt(s[1..], p);
      if Contains(s[1..], p) {
        var i :| OccursAt(s[1..], p, i);
        assert s[i + 1..i + 1 + |p|] == s[1..][i..i + |p|];
        assert OccursAt(s, p, i + 1);
      }
      if exists i :: OccursAt(s, p, i) {
        var i :| OccursAt(s, p, i);
        assert i != 0;
        assert s[1..][i - 1..i - 1 + |p|] == s[i..i + |p|];
        assert OccursAt(s[1..], p, i - 1);
      }
    }
  }

  /** A pattern whose first unit never occurs in s does not occur in s. */
  lemma {:induction false} AbsentHead(s: JsString, p: JsString)
    requires |p| > 0 && p[0] !in s
    ensures !Contains(s, p)
  {
    if |s| > 0 {
      AbsentHead(s[1..], p);
    }
  }

  /**
   * The code units `String.prototype.trim` removes: WhiteSpace (tab, vertical
   * tab, form feed, space, no-break space, byte order mark and the other Zs
   * characters) and LineTerminator (LF, CR, LS, PS).
   */
  predicate IsSpace(c: CodeUnit)
    // among ASCII units: tab, line feed, vertical tab, form feed, carriage return and space
    ensures c < 0x80 ==> (IsSpace(c) <==> 0x09 <= c <= 0x0D || c == 0x20)
  {
    c == 0x09 || c == 0x0A || c == 0x0B || c == 0x0C || c == 0x0D || c == 0x20 ||
    c == 0xA0 || c == 0x1680 || (0x2000 <= c <= 0x200A) || c == 0x2028 || c == 0x2029 ||
    c == 0x202F || c == 0x205F || c == 0x3000 || c == 0xFEFF
  }

  predicate AllSpace(s: JsString)
  {
    forall i :: 0 <= i < |s| ==> IsSpace(s[i])
  }

  /** Leading white space removed: r is a suffix of s, what was cut is white space. */
  function TrimStart(s: JsString): (r: JsString)
    ensures |r| <= |s| && r == s[|s| - |r|..]
    ensures AllSpace(s[..|s| - |r|])
    ensures |r| > 0 ==> !IsSpace(r[0])
  {
    if |s| > 0 && IsSpace(s[0]) then TrimStart(s[1..]) else s
  }

  /** Trailing white space removed: r is a prefix of s, what was cut is white space. */
  function TrimEnd(s: JsString): (r: JsString)
    ensures |r| <= |s| && r == s[..|r|]
    ensures AllSpace(s[|r|..])
    ensures |r| > 0 ==> !IsSpace(r[|r| - 1])
  {
    if |s| > 0 && IsSpace(s[|s| - 1]) then TrimEnd(s[..|s| - 1]) else s
  }

  /** Cutting a prefix of a suffix of s is cutting s itself, at shifted offsets. */
  lemma SliceOfSuffix(s: JsString, i: nat, n: nat)
    requires i + n <= |s|
    ensures s[i..][..n] == s[i..i + n] && s[i..][n..] == s[i + n..]
  {
  }

  /** `s.trim()`. */
  function Trim(s: JsString): (r: JsString)
    ensures |r| > 0 ==> !IsSpace(r[0]) && !IsSpace(r[|r| - 1])
    ensures exists i, j :: 0 <= i <= j <= |s| && r == s[i..j] && AllSpace(s[..i]) && AllSpace(s[j..])
  {
    var t := TrimStart(s);
    var r := TrimEnd(t);
    var i := |s| - |t|;
    SliceOfSuffix(s, i, |r|);
    assert r == s[i..i + |r|] && AllSpace(s[..i]) && AllSpace(s[i + |r|..]);
    r
  }

  /** Trimming ignores one more trailing white-space unit. */
  lemma {:induction false} TrimStartSnoc(s: JsString, w: CodeUnit)
    requires IsSpace(w)
    ensures TrimStart(s + [w]) == if AllSpace(s) then [] else TrimStart(s) + [w]
  {
    if |s| == 0 {
      assert TrimStart([w]) == TrimStart([]);
    } else if IsSpace(s[0]) {
      assert (s + [w])[1..] == s[1..] + [w];
      TrimStartSnoc(s[1..], w);
      if AllSpace(s[1..]) {
        assert AllSpace(s);
      } else {
        assert !AllSpace(s);
      }
    } else {
      assert !AllSpace(s);
    }
  }

  lemma TrimSnoc(s: JsString, w: CodeUnit)
    requires IsSpace(w)
    ensures Trim(s + [w]) == Trim(s)
  {
    TrimStartSnoc(s, w);
    if AllSpace(s) {
      assert |TrimStart(s)| == 0;
    } else {
      var t := TrimStart(s);
      assert (t + [w])[..|t|] == t;
    }
  }
}
