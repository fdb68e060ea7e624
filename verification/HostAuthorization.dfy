/**
 * From the environment and the host's own status text to what each adapter may do: the two opt-ins,
 * the effective capability mask, the granted capabilities and the classification of adapters.
 */
module HostAuthorization {
  import opened Prelude
  import opened Characters

  // ---------------------------------------------------------------- text

  predicate IsLineEnd(c: char) { c == '\n' || c == '\r' || c as int == 0x2028 || c as int == 0x2029 }

  predicate IsHex(c: char) { '0' <= c <= '9' || 'a' <= c <= 'f' || 'A' <= c <= 'F' }

  /** The length of the longest prefix of characters satisfying `p`. */
  function Span(s: string, p: char -> bool): (n: nat)
    ensures n <= |s| && (forall i :: 0 <= i < n ==> p(s[i])) && (n < |s| ==> !p(s[n]))
  {
    if s == [] || !p(s[0]) then 0 else 1 + Span(s[1..], p)
  }

  predicate All(s: string, p: char -> bool) { forall i :: 0 <= i < |s| ==> p(s[i]) }

  lemma SpanOfPrefix(a: string, b: string, p: char -> bool)
    requires All(a, p) && (b == [] || !p(b[0]))
    ensures Span(a + b, p) == |a|
  {
    assert forall i :: 0 <= i < |a| ==> (a + b)[i] == a[i];
    assert b != [] ==> (a + b)[|a|] == b[0];
  }

  lemma SpanSplits(s: string, p: char -> bool) returns (a: string, b: string)
    ensures a == s[..Span(s, p)] && b == s[Span(s, p)..] && s == a + b && All(a, p)
  {
    a, b := s[..Span(s, p)], s[Span(s, p)..];
  }

  function Lower(s: string): string {
    seq(|s|, i requires 0 <= i < |s| => if 'A' <= s[i] <= 'Z' then (s[i] as int + 32) as char else s[i])
  }

  // ---------------------------------------------------------------- runtime mode

  datatype Mode = Safe | Simulation | Live

  datatype ModeError = UnknownMode | LiveNotEnabled

  /** `IRP_RUNTIME_MODE` and `IRP_ENABLE_LIVE_ROUTE_MUTATION`, where set. */
  datatype Environment = Environment(mode: Option<string>, liveMutation: Option<string>)

  function ResolveRuntimeMode(env: Environment): Result<Mode, ModeError> {
    var raw := Lower(Trim(if env.mode.Some? then env.mode.value else "safe"));
    if raw == "safe" then Ok(Safe)
    else if raw == "simulation" then Ok(Simulation)
    else if raw != "live" then Err(UnknownMode)
    else if env.liveMutation != Some("true") then Err(LiveNotEnabled)
    else Ok(Live)
  }

  /** Both opt-ins: a padded spelling of `live` in any case, and exactly `true`. */
  ghost predicate OptedIn(env: Environment) {
    Asks(env, "live") && env.liveMutation == Some("true")
  }

  lemma LowerBare(s: string)
    requires Bare(Lower(s))
    ensures Bare(s)
  {
  }

  /** The letters of the word, each in lower or upper case. */
  predicate AnyCase(core: string, word: string) {
    && |core| == |word|
    && forall i :: 0 <= i < |word| ==> core[i] == word[i] || core[i] as int + 32 == word[i] as int
  }

  predicate IsLowerCase(word: string) { forall i :: 0 <= i < |word| ==> 'a' <= word[i] <= 'z' }

  lemma LowerExactly(core: string, word: string)
    requires IsLowerCase(word)
    ensures Lower(core) == word <==> AnyCase(core, word)
  {
    if AnyCase(core, word) {
      assert forall i :: 0 <= i < |word| ==> Lower(core)[i] == word[i];
    }
    if Lower(core) == word {
      forall i | 0 <= i < |word| ensures core[i] == word[i] || core[i] as int + 32 == word[i] as int {
        assert Lower(core)[i] == word[i];
      }
    }
  }

  /** A spelling of the word in any case, padded with white space. */
  ghost predicate Spells(text: string, word: string) {
    exists core :: AnyCase(core, word) && Padded(text, core)
  }

  lemma SpellsExactly(m: string, word: string)
    requires IsLowerCase(word)
    ensures Lower(Trim(m)) == word <==> Spells(m, word)
  {
    LowerExactly(Trim(m), word);
    if Lower(Trim(m)) == word {
      LowerBare(Trim(m));
      TrimCharacterization(m, Trim(m));
    }
    forall core | AnyCase(core, word) && Padded(m, core) ensures Trim(m) == core {
      LowerExactly(core, word);
      LowerBare(core);
      TrimCharacterization(m, core);
    }
  }

  /** The variable is set to a spelling of the word. */
  ghost predicate Asks(env: Environment, word: string) { env.mode.Some? && Spells(env.mode.value, word) }

  lemma LiveNeedsBothOptIns(env: Environment)
    ensures ResolveRuntimeMode(env) == Ok(Live) <==> OptedIn(env)
  {
    if env.mode.Some? {
      SpellsExactly(env.mode.value, "live");
    }
  }

  /**
   * Safe mode is the one asked for by name or by saying nothing, simulation only by name; asking for
   * live mode without the second opt-in, or for anything else, is an error.
   */
  lemma ModeExactly(env: Environment)
    ensures ResolveRuntimeMode(env) == Ok(Safe) <==> env.mode.None? || Asks(env, "safe")
    ensures ResolveRuntimeMode(env) == Ok(Simulation) <==> Asks(env, "simulation")
    ensures ResolveRuntimeMode(env) == Err(LiveNotEnabled) <==> Asks(env, "live") && env.liveMutation != Some("true")
    ensures ResolveRuntimeMode(env) == Err(UnknownMode) <==>
      env.mode.Some? && !Asks(env, "safe") && !Asks(env, "simulation") && !Asks(env, "live")
  {
    if env.mode.Some? {
      SpellsExactly(env.mode.value, "safe");
      SpellsExactly(env.mode.value, "simulation");
      SpellsExactly(env.mode.value, "live");
    } else {
      assert AllSpace("") && "safe" == "" + "safe" + "";
      TrimCharacterization("safe", "safe");
    }
  }

  // ---------------------------------------------------------------- effective capabilities

  const Label := "CapEff:"

  /** White space, hexadecimal digits, white space and the end of a line. */
  ghost predicate CapBody(s: string, hex: string) {
    && hex != [] && All(hex, IsHex)
    && exists w, v, rest :: Around(s, w, hex, v, rest)
  }

  predicate Around(s: string, w: string, hex: string, v: string, rest: string) {
    && All(w, IsSpace) && All(v, IsSpace) && (rest == [] || IsLineEnd(rest[0]))
    && s == w + (hex + (v + rest))
  }

  /** `CapEff:` at the start of a line, followed by such a body. */
  ghost predicate CapLine(text: string, p: nat, hex: string) {
    && p <= |text| && (p == 0 || IsLineEnd(text[p - 1]))
    && Label <= text[p..] && CapBody(text[p..][|Label|..], hex)
  }

  /** Some position in the run of white space that `s` starts with is the end of a line or of the text. */
  predicate EndsLine(s: string) {
    var n := Span(s, IsSpace);
    n == |s| || exists i :: 0 <= i < n && IsLineEnd(s[i])
  }

  /** The digits after the label: each run is as long as possible. */
  function Digits(s: string): Option<string> {
    var t := s[Span(s, IsSpace)..];
    var n := Span(t, IsHex);
    if n > 0 && EndsLine(t[n..]) then Some(t[..n]) else None
  }

  function CapAt(text: string, p: nat): Option<string> {
    if p > |text| || (p > 0 && !IsLineEnd(text[p - 1])) || !(Label <= text[p..]) then None
    else Digits(text[p..][|Label|..])
  }

  lemma EndsLineSplits(s: string) returns (v: string, rest: string)
    requires EndsLine(s)
    ensures s == v + rest && All(v, IsSpace) && (rest == [] || IsLineEnd(rest[0]))
  {
    var n := Span(s, IsSpace);
    if n == |s| {
      v, rest := s, [];
    } else {
      var i :| 0 <= i < n && IsLineEnd(s[i]);
      v, rest := s[..i], s[i..];
    }
  }

  lemma SplitEndsLine(v: string, rest: string)
    requires All(v, IsSpace) && (rest == [] || IsLineEnd(rest[0]))
    ensures EndsLine(v + rest)
  {
    var s := v + rest;
    var n := Span(s, IsSpace);
    if rest == [] {
      SpanOfPrefix(v, [], IsSpace);
    } else {
      assert s[|v|] == rest[0];
      assert forall i :: 0 <= i < |v| ==> s[i] == v[i];
      assert n > |v| && IsLineEnd(s[|v|]);
    }
  }

  lemma DigitsSound(s: string, hex: string)
    requires Digits(s) == Some(hex)
    ensures CapBody(s, hex)
  {
    var w, t := SpanSplits(s, IsSpace);
    var h, u := SpanSplits(t, IsHex);
    var v, rest := EndsLineSplits(u);
    assert Around(s, w, h, v, rest);
  }

  lemma DigitsComplete(s: string, hex: string)
    requires CapBody(s, hex)
    ensures Digits(s) == Some(hex)
  {
    var w, v, rest :| Around(s, w, hex, v, rest);
    var tail := v + rest;
    SpanOfPrefix(w, hex + tail, IsSpace);
    assert s[|w|..] == hex + tail;
    SpanOfPrefix(hex, tail, IsHex);
    assert (hex + tail)[|hex|..] == tail && (hex + tail)[..|hex|] == hex;
    SplitEndsLine(v, rest);
  }

  /** The scan finds the digits of a capability line, and only those. */
  lemma CapAtCharacterization(text: string, p: nat, hex: string)
    ensures CapAt(text, p) == Some(hex) <==> CapLine(text, p, hex)
  {
    if CapAt(text, p) == Some(hex) {
      DigitsSound(text[p..][|Label|..], hex);
    }
    if CapLine(text, p, hex) {
      DigitsComplete(text[p..][|Label|..], hex);
    }
  }

  /** The digits of the first capability line at or after `p`. */
  function CapFrom(text: string, p: nat): Option<string>
    decreases |text| - p
  {
    if p > |text| then None
    else if CapAt(text, p).Some? then CapAt(text, p)
    else CapFrom(text, p + 1)
  }

  ghost predicate FirstLine(text: string, p: nat, q: nat, hex: string) {
    p <= q && CapLine(text, q, hex) && forall r, h :: p <= r < q ==> !CapLine(text, r, h)
  }

  lemma NoLineAt(text: string, p: nat)
    requires CapAt(text, p).None?
    ensures forall hex :: !CapLine(text, p, hex)
  {
    forall hex ensures !CapLine(text, p, hex) {
      CapAtCharacterization(text, p, hex);
    }
  }

  lemma FirstLineFrom(text: string, p: nat, q: nat, hex: string)
    requires FirstLine(text, p + 1, q, hex) && forall h :: !CapLine(text, p, h)
    ensures FirstLine(text, p, q, hex)
  {
  }

  lemma {:induction false} CapFromFirst(text: string, p: nat)
    ensures CapFrom(text, p).None? ==> forall q, hex :: p <= q ==> !CapLine(text, q, hex)
    ensures CapFrom(text, p).Some? ==> exists q :: FirstLine(text, p, q, CapFrom(text, p).value)
    decreases |text| - p
  {
    if p <= |text| {
      if CapAt(text, p).Some? {
        CapAtCharacterization(text, p, CapAt(text, p).value);
        assert FirstLine(text, p, p, CapAt(text, p).value);
      } else {
        NoLineAt(text, p);
        CapFromFirst(text, p + 1);
        if CapFrom(text, p + 1).Some? {
          var q :| FirstLine(text, p + 1, q, CapFrom(text, p + 1).value);
          FirstLineFrom(text, p, q, CapFrom(text, p).value);
        }
      }
    }
  }

  // ---------------------------------------------------------------- the capability bit

  function HexDigit(c: char): (d: nat)
    ensures d < 16
  {
    if '0' <= c <= '9' then c as int - '0' as int
    else if 'a' <= c <= 'f' then c as int - 'a' as int + 10
    else if 'A' <= c <= 'F' then c as int - 'A' as int + 10
    else 0
  }

  function HexValue(s: string): nat {
    if s == [] then 0 else 16 * HexValue(s[..|s| - 1]) + HexDigit(s[|s| - 1])
  }

  /** Bit 12 of the mask. */
  predicate HasNetAdmin(mask: nat) { (mask / 4096) % 2 == 1 }

  predicate OddFourthDigit(hex: string) { |hex| >= 4 && HexDigit(hex[|hex| - 4]) % 2 == 1 }

  lemma DropDigit(hex: string)
    requires hex != []
    ensures HexValue(hex) / 16 == HexValue(hex[..|hex| - 1])
    ensures HexValue(hex) % 2 == HexDigit(hex[|hex| - 1]) % 2
  {
  }

  /** The value of all but the last `k` digits. */
  function Shifted(hex: string, k: nat): nat { if k <= |hex| then HexValue(hex[..|hex| - k]) else 0 }

  lemma ShiftOnce(hex: string, k: nat)
    ensures Shifted(hex, k) / 16 == Shifted(hex, k + 1)
  {
    if k < |hex| {
      var front := hex[..|hex| - k];
      DropDigit(front);
      assert front[..|front| - 1] == hex[..|hex| - (k + 1)];
    }
  }

  lemma ThreeShifts(v: nat)
    ensures v / 4096 == v / 16 / 16 / 16
  {
  }

  /** Whatever the number of digits, CAP_NET_ADMIN is held exactly when the fourth digit from the right is odd. */
  lemma NetAdminDigit(hex: string)
    ensures HasNetAdmin(HexValue(hex)) <==> OddFourthDigit(hex)
  {
    ThreeShifts(HexValue(hex));
    assert hex[..|hex| - 0] == hex;
    ShiftOnce(hex, 0);
    ShiftOnce(hex, 1);
    ShiftOnce(hex, 2);
    if |hex| >= 4 {
      DropDigit(hex[..|hex| - 3]);
    }
  }
}
