/** Storage keys and the Kubernetes object names made from them. */
module Keys {

  predicate Digit(c: char) { '0' <= c <= '9' }
  predicate Lower(c: char) { 'a' <= c <= 'z' }
  predicate Upper(c: char) { 'A' <= c <= 'Z' }

  predicate Alnum(c: char) { Digit(c) || Lower(c) || Upper(c) }

  function ToLower(c: char): char {
    if Upper(c) then c - 'A' + 'a' else c
  }

  function ToLowerAll(s: string): string {
    if s == "" then "" else [ToLower(s[0])] + ToLowerAll(s[1..])
  }

  // ---------- The pipeline of cleanKey ----------

  /** What the regular expression [^\da-zA-Z-]+ matches. */
  predicate Special(c: char) { !Alnum(c) && c != '-' }

  predicate DotDash(c: char) { c == '.' || c == '-' }

  /** Length of the longest prefix whose characters all satisfy p. */
  function RunLength(p: char -> bool, s: string): (n: nat)
    ensures n <= |s| && (forall i :: 0 <= i < n ==> p(s[i])) && (n < |s| ==> !p(s[n]))
  {
    if s == "" || !p(s[0]) then 0 else 1 + RunLength(p, s[1..])
  }

  /** Each maximal run of special characters becomes one dot. */
  function ReplaceSpecial(s: string): string
    decreases |s|
  {
    if s == "" then ""
    else if Special(s[0]) then "." + ReplaceSpecial(s[RunLength(Special, s)..])
    else [s[0]] + ReplaceSpecial(s[1..])
  }

  /** Each maximal run of dots and dashes that holds a dot becomes one dot. */
  function CollapseRuns(s: string): string
    decreases |s|
  {
    if s == "" then ""
    else if DotDash(s[0]) then
      var n := RunLength(DotDash, s);
      (if '.' in s[..n] then "." else s[..n]) + CollapseRuns(s[n..])
    else [s[0]] + CollapseRuns(s[1..])
  }

  function TrimLeft(c: char, s: string): string {
    if s != "" && s[0] == c then TrimLeft(c, s[1..]) else s
  }

  function TrimRight(c: char, s: string): string {
    if s != "" && s[|s| - 1] == c then TrimRight(c, s[..|s| - 1]) else s
  }

  function Squeeze(key: string): string {
    CollapseRuns(ToLowerAll(ReplaceSpecial(key)))
  }

  function Clean(key: string): string {
    TrimRight('-', TrimRight('.', TrimLeft('.', Squeeze(key))))
  }

  function CleanKey(key: string, prefix: string): string {
    prefix + Clean(key)
  }

  const LEASE_PREFIX := "caddy-lock-"
  const KEY_PREFIX := "caddy.ingress--"

  // ---------- The same map, one character at a time ----------

  predicate AllDashes(s: string) {
    forall i :: 0 <= i < |s| ==> s[i] == '-'
  }

  /** What separators become in front of a letter or digit: dashes stay, anything else is a dot,
      except at the very front, where dots vanish. */
  function Glue(pending: string, started: bool): string {
    if AllDashes(pending) then pending else if started then "." else ""
  }

  /** Reads the key left to right, holding back separators until a letter or digit follows. */
  function Scan(s: string, pending: string, started: bool): string
    decreases |s|
  {
    if s == "" then ""
    else if Alnum(s[0]) then Glue(pending, started) + [ToLower(s[0])] + Scan(s[1..], "", true)
    else Scan(s[1..], pending + [s[0]], started)
  }

  /** The separators after the last letter or digit. */
  function Trailing(s: string, pending: string): string
    decreases |s|
  {
    if s == "" then pending
    else if Alnum(s[0]) then Trailing(s[1..], "")
    else Trailing(s[1..], pending + [s[0]])
  }

  predicate Separators(s: string) {
    forall i :: 0 <= i < |s| ==> !Alnum(s[i])
  }

  // ---------- The pipeline in blocks ----------

  lemma {:induction false} LowerAppend(s: string, t: string)
    ensures ToLowerAll(s + t) == ToLowerAll(s) + ToLowerAll(t)
  {
    if s == "" {
      assert s + t == t;
    } else {
      assert (s + t)[1..] == s[1..] + t;
      LowerAppend(s[1..], t);
    }
  }

  predicate StartsAlnum(s: string) { s == "" || Alnum(s[0]) }

  lemma RunLengthIs(p: char -> bool, s: string, n: nat)
    requires n <= |s| && (forall i :: 0 <= i < n ==> p(s[i])) && (n < |s| ==> !p(s[n]))
    ensures RunLength(p, s) == n
  {
  }

  lemma ReplaceRunAppend(s: string, t: string, n: nat)
    requires s != "" && Special(s[0]) && StartsAlnum(t) && n == RunLength(Special, s)
    ensures ReplaceSpecial(s + t) == "." + ReplaceSpecial(s[n..] + t)
  {
    RunLengthIs(Special, s + t, n);
    assert (s + t)[n..] == s[n..] + t;
  }

  /** Replacing runs does not reach across a letter or digit. */
  lemma {:induction false} ReplaceAppend(s: string, t: string)
    requires StartsAlnum(t)
    ensures ReplaceSpecial(s + t) == ReplaceSpecial(s) + ReplaceSpecial(t)
    decreases |s|
  {
    if s == "" {
      assert s + t == t;
    } else if Special(s[0]) {
      var n := RunLength(Special, s);
      ReplaceAppend(s[n..], t);
      ReplaceRunAppend(s, t, n);
    } else {
      ReplaceAppend(s[1..], t);
      assert (s + t)[1..] == s[1..] + t;
    }
  }

  /** A separator run turns into dots and dashes, with a dot unless it was all dashes. */
  lemma {:induction false} ReplaceSeparators(s: string)
    requires Separators(s)
    ensures var r := ToLowerAll(ReplaceSpecial(s));
            && (forall i :: 0 <= i < |r| ==> DotDash(r[i]))
            && (AllDashes(s) ==> r == s)
            && (!AllDashes(s) ==> '.' in r)
    decreases |s|
  {
    if s == "" {
    } else if Special(s[0]) {
      var n := RunLength(Special, s);
      ReplaceSeparators(s[n..]);
      LowerAppend(".", ReplaceSpecial(s[n..]));
    } else {
      ReplaceSeparators(s[1..]);
      LowerAppend([s[0]], ReplaceSpecial(s[1..]));
      assert s == [s[0]] + s[1..];
    }
  }

  predicate StartsNotDotDash(s: string) { s == "" || !DotDash(s[0]) }

  /** A block of dots and dashes, followed by a letter or digit or nothing. */
  lemma CollapseBlock(u: string, v: string)
    requires forall i :: 0 <= i < |u| ==> DotDash(u[i])
    requires StartsNotDotDash(v)
    ensures CollapseRuns(u + v) == (if '.' in u then "." else u) + CollapseRuns(v)
  {
    if u == "" {
      assert u + v == v;
    } else {
      RunLengthIs(DotDash, u + v, |u|);
      assert (u + v)[..|u|] == u && (u + v)[|u|..] == v;
    }
  }

  function Block(pending: string): string {
    if AllDashes(pending) then pending else "."
  }

  lemma SqueezeSeparators(pending: string)
    requires Separators(pending)
    ensures Squeeze(pending) == Block(pending)
  {
    ReplaceSeparators(pending);
    var r := ToLowerAll(ReplaceSpecial(pending));
    CollapseBlock(r, "");
    assert r + "" == r;
  }

  function Dotted(s: string): string {
    ToLowerAll(ReplaceSpecial(s))
  }

  lemma DottedBlock(pending: string, c: char, rest: string)
    requires Alnum(c)
    ensures Dotted(pending + [c] + rest) == Dotted(pending) + ([ToLower(c)] + Dotted(rest))
  {
    var t := [c] + rest;
    assert pending + [c] + rest == pending + t;
    ReplaceAppend(pending, t);
    LowerAppend(ReplaceSpecial(pending), ReplaceSpecial(t));
    assert t[1..] == rest;
    assert ReplaceSpecial(t) == [c] + ReplaceSpecial(rest);
    LowerAppend([c], ReplaceSpecial(rest));
  }

  lemma CollapseLetter(c: char, v: string)
    requires !DotDash(c)
    ensures CollapseRuns([c] + v) == [c] + CollapseRuns(v)
  {
    assert ([c] + v)[1..] == v;
  }

  lemma BlockOf(pending: string)
    requires Separators(pending)
    ensures var u := Dotted(pending);
            (forall i :: 0 <= i < |u| ==> DotDash(u[i])) && (if '.' in u then "." else u) == Block(pending)
  {
    ReplaceSeparators(pending);
  }

  lemma SqueezeBlock(pending: string, c: char, rest: string)
    requires Separators(pending) && Alnum(c)
    ensures Squeeze(pending + [c] + rest) == Block(pending) + [ToLower(c)] + Squeeze(rest)
  {
    var u, v := Dotted(pending), [ToLower(c)] + Dotted(rest);
    calc {
      Squeeze(pending + [c] + rest);
      { DottedBlock(pending, c, rest); }
      CollapseRuns(u + v);
      { BlockOf(pending); CollapseBlock(u, v); }
      Block(pending) + CollapseRuns(v);
      { CollapseLetter(ToLower(c), Dotted(rest)); }
      Block(pending) + ([ToLower(c)] + Squeeze(rest));
      Block(pending) + [ToLower(c)] + Squeeze(rest);
    }
  }

  /** Before trimming, the pipeline is the scan with its last separators put back. */
  lemma {:induction false} SqueezeScans(s: string, pending: string)
    requires Separators(pending)
    ensures Squeeze(pending + s) == Raw(s, pending)
    decreases |s|
  {
    if s == "" {
      assert pending + s == pending;
      SqueezeSeparators(pending);
    } else if Alnum(s[0]) {
      assert pending + s == pending + [s[0]] + s[1..];
      SqueezeBlock(pending, s[0], s[1..]);
      SqueezeScans(s[1..], "");
      assert "" + s[1..] == s[1..];
    } else {
      assert pending + s == (pending + [s[0]]) + s[1..];
      SqueezeScans(s[1..], pending + [s[0]]);
    }
  }

  function Raw(s: string, pending: string): string
    decreases |s|
  {
    if s == "" then Block(pending)
    else if Alnum(s[0]) then Block(pending) + [ToLower(s[0])] + Raw(s[1..], "")
    else Raw(s[1..], pending + [s[0]])
  }

  predicate EndsAlnum(s: string) { s == "" || Alnum(s[|s| - 1]) }

  lemma {:induction false} ScanEnds(s: string, pending: string, started: bool)
    ensures EndsAlnum(Scan(s, pending, started))
    decreases |s|
  {
    if s == "" {
    } else if Alnum(s[0]) {
      ScanEnds(s[1..], "", true);
    } else {
      ScanEnds(s[1..], pending + [s[0]], started);
    }
  }

  lemma {:induction false} RawIsScan(s: string, pending: string)
    ensures Raw(s, pending) == Scan(s, pending, true) + Block(Trailing(s, pending))
    decreases |s|
  {
    if s == "" {
    } else if Alnum(s[0]) {
      RawIsScan(s[1..], "");
      assert Glue(pending, true) == Block(pending);
    } else {
      RawIsScan(s[1..], pending + [s[0]]);
    }
  }

  // ---------- Trimming ----------

  lemma TrimDot(s: string)
    requires s == "" || s[0] != '.'
    ensures TrimLeft('.', "." + s) == s && TrimLeft('.', s) == s
  {
    assert ("." + s)[1..] == s;
  }

  lemma {:induction false} TrimDashes(x: string, dashes: string)
    requires EndsAlnum(x) && AllDashes(dashes)
    ensures TrimRight('-', x + dashes) == x
    decreases |dashes|
  {
    if dashes == "" {
      assert x + dashes == x;
    } else {
      assert (x + dashes)[..|x + dashes| - 1] == x + dashes[..|dashes| - 1];
      TrimDashes(x, dashes[..|dashes| - 1]);
    }
  }

  /** The right-hand trims remove exactly the trailing block. */
  lemma TrimTail(x: string, pending: string)
    requires EndsAlnum(x)
    ensures TrimRight('-', TrimRight('.', x + Block(pending))) == x
  {
    if AllDashes(pending) {
      assert TrimRight('.', x + pending) == x + pending;
      TrimDashes(x, pending);
    } else {
      assert (x + ".")[..|x + "."| - 1] == x;
      assert TrimRight('.', x) == x;
      TrimDashes(x, "");
      assert x + "" == x;
    }
  }

  /** The left-hand trim is what `started` stands for. */
  lemma {:induction false} TrimFront(s: string, pending: string)
    requires Scan(s, pending, true) != ""
    ensures TrimLeft('.', Raw(s, pending)) == Scan(s, pending, false) + Block(Trailing(s, pending))
    ensures Scan(s, pending, false) != ""
    decreases |s|
  {
    if Alnum(s[0]) {
      var rest := [ToLower(s[0])] + Raw(s[1..], "");
      RawIsScan(s[1..], "");
      assert Raw(s, pending) == Block(pending) + rest;
      if AllDashes(pending) {
        assert pending + rest == "" || (pending + rest)[0] != '.';
        TrimDot(pending + rest);
      } else {
        TrimDot(rest);
      }
      assert Scan(s, pending, false) == Glue(pending, false) + [ToLower(s[0])] + Scan(s[1..], "", true);
    } else {
      TrimFront(s[1..], pending + [s[0]]);
    }
  }

  /** A key without letters or digits cleans to nothing. */
  lemma {:induction false} EmptyScan(s: string, pending: string)
    requires Scan(s, pending, true) == ""
    ensures Scan(s, pending, false) == "" && Raw(s, pending) == Block(Trailing(s, pending))
    decreases |s|
  {
    if s != "" && !Alnum(s[0]) {
      EmptyScan(s[1..], pending + [s[0]]);
    }
  }

  /** The regex pipeline computes exactly the scan. */
  lemma CleanIsScan(key: string)
    ensures Clean(key) == Scan(key, "", false)
  {
    SqueezeScans(key, "");
    assert "" + key == key;
    var tail := Trailing(key, "");
    if Scan(key, "", true) == "" {
      EmptyScan(key, "");
      if AllDashes(tail) {
        assert TrimLeft('.', tail) == tail && TrimRight('.', tail) == tail;
        TrimDashes("", tail);
        assert "" + tail == tail;
      } else {
        assert TrimLeft('.', ".") == "";
      }
    } else {
      TrimFront(key, "");
      ScanEnds(key, "", false);
      TrimTail(Scan(key, "", false), tail);
    }
  }
}
