/** White space and decimal digits as the JavaScript runtime understands them. */
module Characters {

  /** The characters matched by `\s` and removed by `trim`. */
  predicate IsSpace(c: char) {
    var n := c as int;
    || 9 <= n <= 13 || n == 0x20 || n == 0xA0 || n == 0x1680 || 0x2000 <= n <= 0x200A
    || n == 0x2028 || n == 0x2029 || n == 0x202F || n == 0x205F || n == 0x3000 || n == 0xFEFF
  }

  predicate AllSpace(s: string) { forall i :: 0 <= i < |s| ==> IsSpace(s[i]) }

  function TrimStart(s: string): string {
    if s != "" && IsSpace(s[0]) then TrimStart(s[1..]) else s
  }

  function TrimEnd(s: string): string {
    if s != "" && IsSpace(s[|s| - 1]) then TrimEnd(s[..|s| - 1]) else s
  }

  function Trim(s: string): string { TrimEnd(TrimStart(s)) }

  lemma {:induction false} TrimStartDrops(a: string, t: string)
    requires AllSpace(a) && (t == "" || !IsSpace(t[0]))
    ensures TrimStart(a + t) == t
  {
    if a == "" {
      assert a + t == t;
    } else {
      assert (a + t)[1..] == a[1..] + t;
      TrimStartDrops(a[1..], t);
    }
  }

  lemma {:induction false} TrimStartSplits(s: string) returns (a: string)
    ensures s == a + TrimStart(s) && AllSpace(a) && (TrimStart(s) == "" || !IsSpace(TrimStart(s)[0]))
  {
    if s != "" && IsSpace(s[0]) {
      var b := TrimStartSplits(s[1..]);
      a := [s[0]] + b;
    } else {
      a := "";
    }
  }

  lemma {:induction false} TrimEndDrops(s: string, t: string)
    requires AllSpace(t) && (s == "" || !IsSpace(s[|s| - 1]))
    ensures TrimEnd(s + t) == s
  {
    if t == "" {
      assert s + t == s;
    } else {
      assert (s + t)[..|s + t| - 1] == s + t[..|t| - 1];
      TrimEndDrops(s, t[..|t| - 1]);
    }
  }

  lemma {:induction false} TrimEndSplits(s: string) returns (t: string)
    ensures s == TrimEnd(s) + t && AllSpace(t) && (TrimEnd(s) == "" || !IsSpace(TrimEnd(s)[|TrimEnd(s)| - 1]))
  {
    if s != "" && IsSpace(s[|s| - 1]) {
      var u := TrimEndSplits(s[..|s| - 1]);
      t := u + [s[|s| - 1]];
    } else {
      t := "";
    }
  }

  /** `s` is `core` between two runs of white space. */
  ghost predicate Padded(s: string, core: string) {
    exists a, b :: AllSpace(a) && AllSpace(b) && s == a + core + b
  }

  predicate Bare(core: string) { core == "" || (!IsSpace(core[0]) && !IsSpace(core[|core| - 1])) }

  /** Trimming yields a text exactly when the text is bare and the input is that text padded with white space. */
  lemma TrimCharacterization(s: string, core: string)
    ensures Trim(s) == core <==> Bare(core) && Padded(s, core)
  {
    if Trim(s) == core {
      var a := TrimStartSplits(s);
      var b := TrimEndSplits(TrimStart(s));
      assert TrimStart(s) == core + b;
      assert core != "" ==> TrimStart(s)[0] == core[0];
      assert s == a + core + b;
    }
    if Bare(core) && Padded(s, core) {
      var a, b :| AllSpace(a) && AllSpace(b) && s == a + core + b;
      if core == "" {
        assert s == (a + b) + "";
        TrimStartDrops(a + b, "");
      } else {
        assert s == a + (core + b);
        TrimStartDrops(a, core + b);
        TrimEndDrops(core, b);
      }
    }
  }

  /** Trimming leaves nothing exactly of white space. */
  lemma TrimBlank(s: string)
    ensures Trim(s) == "" <==> AllSpace(s)
  {
    TrimCharacterization(s, "");
    if AllSpace(s) {
      assert AllSpace("") && s == s + "" + "";
    }
  }

  function Codes(s: string): seq<int> { seq(|s|, i requires 0 <= i < |s| => s[i] as int) }

  /** The number spelled by decimal digits, given by their code units. */
  function DecimalValue(digits: seq<int>): int {
    if digits == [] then 0 else 10 * DecimalValue(digits[..|digits| - 1]) + (digits[|digits| - 1] - '0' as int)
  }
}
