/** The text `resolvectl dns <link>` prints, and `parseResolvectlDns`, which reads it back. */
module ResolverText {
  import opened Characters

  predicate NoSpace(s: string) { forall i :: 0 <= i < |s| ==> !IsSpace(s[i]) }

  /** `[0-9a-fA-F:.]` */
  predicate IsAddressChar(c: char) {
    '0' <= c <= '9' || 'a' <= c <= 'f' || 'A' <= c <= 'F' || c == ':' || c == '.'
  }

  predicate AllAddress(s: string) { forall i :: 0 <= i < |s| ==> IsAddressChar(s[i]) }

  // ---------------------------------------------------------------- the accepted tokens

  predicate IsSuffix(s: string, mark: char) { s == "" || (|s| > 1 && s[0] == mark && NoSpace(s)) }

  /** `^[0-9a-fA-F:.]+(%\S+)?(#\S+)?$` */
  ghost predicate MatchesPattern(s: string) {
    exists a, z, n :: s == a + z + n && a != "" && AllAddress(a) && IsSuffix(z, '%') && IsSuffix(n, '#')
  }

  function AddressLength(s: string): (k: nat)
    ensures k <= |s| && AllAddress(s[..k])
    ensures k < |s| ==> !IsAddressChar(s[k])
  {
    if s == "" || !IsAddressChar(s[0]) then 0 else 1 + AddressLength(s[1..])
  }

  /** The pattern decided by one scan: the leading address, then a zone or a server name. */
  predicate IsResolver(s: string) {
    var k := AddressLength(s);
    k > 0 && (IsSuffix(s[k..], '%') || IsSuffix(s[k..], '#'))
  }

  lemma {:induction false} AddressLengthOf(a: string, t: string)
    requires AllAddress(a) && (t == "" || !IsAddressChar(t[0]))
    ensures AddressLength(a + t) == |a|
  {
    if a != "" {
      assert (a + t)[1..] == a[1..] + t;
      AddressLengthOf(a[1..], t);
    } else {
      assert a + t == t;
    }
  }

  lemma IsResolverExact(s: string)
    ensures IsResolver(s) <==> MatchesPattern(s)
  {
    var k := AddressLength(s);
    if IsResolver(s) {
      var rest := s[k..];
      assert s == s[..k] + rest + "" && s == s[..k] + "" + rest;
    }
    if MatchesPattern(s) {
      var a, z, n :| s == a + z + n && a != "" && AllAddress(a) && IsSuffix(z, '%') && IsSuffix(n, '#');
      assert s == a + (z + n);
      AddressLengthOf(a, z + n);
      assert s[|a|..] == z + n;
    }
  }

  lemma ResolverHasNoSpace(s: string)
    requires IsResolver(s)
    ensures s != "" && NoSpace(s)
  {
    var k := AddressLength(s);
    forall i | 0 <= i < |s| ensures !IsSpace(s[i]) {
      if i < k { assert s[..k][i] == s[i]; } else { assert s[k..][i - k] == s[i]; }
    }
  }

  // ---------------------------------------------------------------- the parser

  /** The text after the last line break: `split('\n').at(-1)`. */
  function LastLine(s: string): string {
    if '\n' !in s then s else LastLine(s[1..])
  }

  /** The text after the first colon, or all of it. */
  function AfterColon(s: string): string {
    if ':' !in s then s else if s[0] == ':' then s[1..] else AfterColon(s[1..])
  }

  function FirstSpace(s: string): (i: nat)
    requires !NoSpace(s)
    ensures i < |s| && IsSpace(s[i]) && NoSpace(s[..i])
  {
    if IsSpace(s[0]) then 0 else
      assert !NoSpace(s[1..]);
      1 + FirstSpace(s[1..])
  }

  lemma TrimStartShortens(s: string)
    ensures |TrimStart(s)| <= |s|
    ensures s != "" && IsSpace(s[0]) ==> |TrimStart(s)| < |s|
  {
  }

  /** `split(/\s+/)`: the pieces between runs of white space, empty at the edges if the text is. */
  function Pieces(s: string): seq<string>
    decreases |s|
  {
    if NoSpace(s) then [s] else
      var i := FirstSpace(s);
      TrimStartShortens(s[i..]);
      [s[..i]] + Pieces(TrimStart(s[i..]))
  }

  function Accepted(ts: seq<string>): seq<string> {
    if ts == [] then [] else (if IsResolver(ts[0]) then [ts[0]] else []) + Accepted(ts[1..])
  }

  function Parse(stdout: string): seq<string> {
    Accepted(Pieces(AfterColon(LastLine(Trim(stdout)))))
  }

  // ---------------------------------------------------------------- the printer

  function Spaced(servers: seq<string>): string {
    if servers == [] then "" else " " + servers[0] + Spaced(servers[1..])
  }

  function Header(index: string, link: string): string { "Link " + index + " (" + link + ")" }

  /** `Link 2 (eth0): 1.1.1.1 8.8.8.8`, ended by a line break. */
  function Print(index: string, link: string, servers: seq<string>): string {
    Header(index, link) + ":" + Spaced(servers) + "\n"
  }

  predicate IsLinkName(s: string) { ':' !in s && '\n' !in s }

  predicate AreResolvers(ts: seq<string>) { forall i :: 0 <= i < |ts| ==> IsResolver(ts[i]) }

  predicate AreWords(ts: seq<string>) { forall i :: 0 <= i < |ts| ==> ts[i] != "" && NoSpace(ts[i]) }

  lemma ResolversAreWords(ts: seq<string>)
    requires AreResolvers(ts)
    ensures AreWords(ts)
  {
    forall i | 0 <= i < |ts| ensures ts[i] != "" && NoSpace(ts[i]) { ResolverHasNoSpace(ts[i]); }
  }

  lemma {:induction false} SpacedEnds(servers: seq<string>)
    requires AreWords(servers)
    ensures '\n' !in Spaced(servers)
    ensures servers != [] ==> Spaced(servers) != "" && !IsSpace(Spaced(servers)[|Spaced(servers)| - 1])
  {
    if servers != [] {
      SpacedEnds(servers[1..]);
      if servers[1..] == [] {
        assert Spaced(servers[1..]) == "";
      }
    }
  }

  lemma {:induction false} AfterColonSplits(head: string, tail: string)
    requires ':' !in head
    ensures AfterColon(head + ":" + tail) == tail
  {
    var s := head + ":" + tail;
    assert s[|head|] == ':';
    if head != "" {
      assert s[0] == head[0] && s[1..] == head[1..] + ":" + tail;
      AfterColonSplits(head[1..], tail);
    } else {
      assert s[1..] == tail;
    }
  }

  lemma PiecesOfWord(w: string, t: string)
    requires NoSpace(w) && t != "" && IsSpace(t[0])
    ensures Pieces(w + t) == [w] + Pieces(TrimStart(t))
  {
    var s := w + t;
    assert s[|w|] == t[0];
    var i := FirstSpace(s);
    assert i >= |w|;
    assert i <= |w|;
    assert s[..i] == w && s[i..] == t;
  }

  lemma TrimOne(w: string, t: string)
    requires w != "" && !IsSpace(w[0])
    ensures TrimStart(" " + w + t) == w + t
  {
    var s := " " + w + t;
    assert s[0] == ' ' && s[1..] == w + t && (w + t)[0] == w[0];
  }

  /** Pieces of `w s1 s2 ...` for a word `w`. */
  lemma {:induction false} PiecesOfSpaced(w: string, servers: seq<string>)
    requires NoSpace(w) && AreWords(servers)
    ensures Pieces(w + Spaced(servers)) == [w] + servers
    decreases servers
  {
    if servers == [] {
      assert w + Spaced(servers) == w;
    } else {
      TrimOne(servers[0], Spaced(servers[1..]));
      PiecesOfWord(w, Spaced(servers));
      PiecesOfSpaced(servers[0], servers[1..]);
      assert servers == [servers[0]] + servers[1..];
    }
  }

  lemma {:induction false} AcceptedAreResolvers(ts: seq<string>)
    ensures AreResolvers(Accepted(ts))
  {
    if ts != [] {
      AcceptedAreResolvers(ts[1..]);
    }
  }

  lemma {:induction false} AcceptedShorter(ts: seq<string>)
    ensures |Accepted(ts)| <= |ts|
    ensures Accepted(ts) == ts <==> AreResolvers(ts)
  {
    if ts != [] {
      AcceptedShorter(ts[1..]);
      assert ts == [ts[0]] + ts[1..];
      if IsResolver(ts[0]) {
        assert Accepted(ts)[1..] == Accepted(ts[1..]);
        assert AreResolvers(ts) <==> AreResolvers(ts[1..]) by {
          assert forall i :: 0 < i < |ts| ==> ts[i] == ts[1..][i - 1];
          assert forall i :: 0 <= i < |ts[1..]| ==> ts[1..][i] == ts[i + 1];
        }
      }
    }
  }

  lemma FramedLine(head: string, tail: string)
    requires head != "" && !IsSpace(head[0]) && '\n' !in head && '\n' !in tail
    requires tail == "" || !IsSpace(tail[|tail| - 1])
    ensures LastLine(Trim(head + ":" + tail + "\n")) == head + ":" + tail
  {
    var line := head + ":" + tail;
    assert TrimStart(line + "\n") == line + "\n" by { assert (line + "\n")[0] == head[0]; }
    assert !IsSpace(line[|line| - 1]);
    TrimEndDrops(line, "\n");
    assert '\n' !in line;
  }

  lemma ParseSpaced(servers: seq<string>)
    requires AreWords(servers)
    ensures Accepted(Pieces(Spaced(servers))) == Accepted(servers)
  {
    assert "" + Spaced(servers) == Spaced(servers);
    PiecesOfSpaced("", servers);
    assert ([""] + servers)[1..] == servers;
  }

  /**
   * Reading what `resolvectl` prints keeps the accepted tokens, so it gives back the list of
   * resolvers, empty or not, exactly when the pattern accepts each of them.
   */
  lemma {:induction false} ParsePrint(index: string, link: string, servers: seq<string>)
    requires IsLinkName(index) && IsLinkName(link) && AreWords(servers)
    ensures Parse(Print(index, link, servers)) == Accepted(servers)
    ensures Parse(Print(index, link, servers)) == servers <==> AreResolvers(servers)
  {
    SpacedEnds(servers);
    FramedLine(Header(index, link), Spaced(servers));
    AfterColonSplits(Header(index, link), Spaced(servers));
    ParseSpaced(servers);
    AcceptedShorter(servers);
  }

}
