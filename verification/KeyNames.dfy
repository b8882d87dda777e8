/** What the names made from storage keys are good for: they are valid Kubernetes names, they
    respect prefixes, cleaning twice changes nothing, and two keys share a name only when they
    agree on every letter and on the kind of gap before it. */
module KeyNames {
  import opened Keys

  lemma CleanKeyIsScan(key: string, prefix: string)
    ensures CleanKey(key, prefix) == prefix + Scan(key, "", false)
  {
    CleanIsScan(key);
  }

  // ---------- Prefixes ----------

  lemma {:induction false} ScanPrefix(p: string, r: string, pending: string, started: bool)
    ensures Scan(p, pending, started) <= Scan(p + r, pending, started)
    decreases |p|
  {
    if p != "" {
      assert (p + r)[1..] == p[1..] + r;
      if Alnum(p[0]) {
        ScanPrefix(p[1..], r, "", true);
      } else {
        ScanPrefix(p[1..], r, pending + [p[0]], started);
      }
    }
  }

  /** The name of a key's prefix is a prefix of the key's name. */
  lemma PrefixCompatible(p: string, r: string, prefix: string)
    ensures CleanKey(p, prefix) <= CleanKey(p + r, prefix)
  {
    CleanKeyIsScan(p, prefix);
    CleanKeyIsScan(p + r, prefix);
    ScanPrefix(p, r, "", false);
  }

  // ---------- Cleaning twice ----------

  lemma {:induction false} ScanSeparators(g: string, rest: string, pending: string, started: bool)
    requires Separators(g)
    ensures Scan(g + rest, pending, started) == Scan(rest, pending + g, started)
    decreases |g|
  {
    if g == "" {
      assert g + rest == rest && pending + g == pending;
    } else {
      assert (g + rest)[1..] == g[1..] + rest;
      assert pending + g == (pending + [g[0]]) + g[1..];
      ScanSeparators(g[1..], rest, pending + [g[0]], started);
    }
  }

  lemma ScanToken(g: string, c: char, rest: string, started: bool)
    requires Separators(g) && Alnum(c)
    ensures Scan(g + [c] + rest, "", started) == Glue(g, started) + [ToLower(c)] + Scan(rest, "", true)
  {
    var t := [c] + rest;
    assert g + [c] + rest == g + t;
    ScanSeparators(g, t, "", started);
    assert "" + g == g && t[1..] == rest;
  }

  lemma {:induction false} ScanTwice(s: string, pending: string, started: bool)
    requires Separators(pending)
    ensures Scan(Scan(s, pending, started), "", started) == Scan(s, pending, started)
    decreases |s|
  {
    if s == "" {
    } else if Alnum(s[0]) {
      var g, rest := Glue(pending, started), Scan(s[1..], "", true);
      ScanToken(g, ToLower(s[0]), rest, started);
      ScanTwice(s[1..], "", true);
    } else {
      ScanTwice(s[1..], pending + [s[0]], started);
    }
  }

  lemma Idempotent(key: string)
    ensures CleanKey(CleanKey(key, ""), "") == CleanKey(key, "")
  {
    CleanKeyIsScan(key, "");
    CleanKeyIsScan(Scan(key, "", false), "");
    ScanTwice(key, "", false);
    assert "" + Scan(key, "", false) == Scan(key, "", false);
  }

  /** A name cleaned again under the same prefix, once that prefix is cut off, is itself. */
  lemma NameRoundTrip(key: string, prefix: string)
    ensures prefix <= CleanKey(key, prefix)
    ensures CleanKey(CleanKey(key, prefix)[|prefix|..], prefix) == CleanKey(key, prefix)
  {
    assert CleanKey(key, prefix)[|prefix|..] == Clean(key);
    Idempotent(key);
    assert "" + Clean(key) == Clean(key) && "" + Clean(Clean(key)) == Clean(Clean(key));
  }

  lemma {:induction false} ScanLength(s: string, pending: string, started: bool)
    ensures |Scan(s, pending, started)| <= |pending| + |s|
    decreases |s|
  {
    if s == "" {
    } else if Alnum(s[0]) {
      ScanLength(s[1..], "", true);
    } else {
      ScanLength(s[1..], pending + [s[0]], started);
    }
  }

  lemma NoLonger(key: string, prefix: string)
    ensures |CleanKey(key, prefix)| <= |prefix| + |key|
  {
    CleanKeyIsScan(key, prefix);
    ScanLength(key, "", false);
  }

  // ---------- Collisions ----------

  datatype Gap = Dashes(n: nat) | Dot

  /** A letter or digit of the key, lowercased, and the separators in front of it: so many dashes,
      or something else. Leading separators other than dashes do not count. */
  datatype Token = Token(gap: Gap, letter: char)

  function GapOf(pending: string, started: bool): Gap {
    if AllDashes(pending) then Dashes(|pending|) else if started then Dot else Dashes(0)
  }

  function Tokens(s: string, pending: string, started: bool): seq<Token>
    decreases |s|
  {
    if s == "" then []
    else if Alnum(s[0]) then [Token(GapOf(pending, started), ToLower(s[0]))] + Tokens(s[1..], "", true)
    else Tokens(s[1..], pending + [s[0]], started)
  }

  function GapText(g: Gap): string {
    match g
    case Dashes(n) => seq(n, _ => '-')
    case Dot => "."
  }

  function Render(tokens: seq<Token>): string {
    if tokens == [] then "" else GapText(tokens[0].gap) + [tokens[0].letter] + Render(tokens[1..])
  }

  lemma {:induction false} ScanRenders(s: string, pending: string, started: bool)
    ensures Scan(s, pending, started) == Render(Tokens(s, pending, started))
    ensures forall i :: 0 <= i < |Tokens(s, pending, started)| ==> Alnum(Tokens(s, pending, started)[i].letter)
    decreases |s|
  {
    if s == "" {
    } else if Alnum(s[0]) {
      ScanRenders(s[1..], "", true);
      assert Glue(pending, started) == GapText(GapOf(pending, started));
      assert Tokens(s, pending, started)[1..] == Tokens(s[1..], "", true);
    } else {
      ScanRenders(s[1..], pending + [s[0]], started);
    }
  }

  /** The first letter or digit ends the gap. */
  lemma GapDetermined(g: Gap, c: char, u: string, h: Gap, d: char, v: string)
    requires Alnum(c) && Alnum(d)
    requires GapText(g) + [c] + u == GapText(h) + [d] + v
    ensures g == h && c == d && u == v
  {
    var x, y := GapText(g) + [c] + u, GapText(h) + [d] + v;
    assert x[|GapText(g)|] == c && y[|GapText(h)|] == d;
    assert forall i :: 0 <= i < |GapText(g)| ==> x[i] == GapText(g)[i] && !Alnum(x[i]);
    assert forall i :: 0 <= i < |GapText(h)| ==> y[i] == GapText(h)[i] && !Alnum(y[i]);
    assert |GapText(g)| == |GapText(h)|;
    assert GapText(g) == x[..|GapText(g)|] == y[..|GapText(h)|] == GapText(h);
    assert u == x[|GapText(g)| + 1..] && v == y[|GapText(h)| + 1..];
  }

  lemma {:induction false} RenderInjective(a: seq<Token>, b: seq<Token>)
    requires forall i :: 0 <= i < |a| ==> Alnum(a[i].letter)
    requires forall i :: 0 <= i < |b| ==> Alnum(b[i].letter)
    requires Render(a) == Render(b)
    ensures a == b
  {
    if a != [] && b != [] {
      GapDetermined(a[0].gap, a[0].letter, Render(a[1..]), b[0].gap, b[0].letter, Render(b[1..]));
      RenderInjective(a[1..], b[1..]);
      assert a == [a[0]] + a[1..] && b == [b[0]] + b[1..];
    }
  }

  /** Exactly which keys collide. */
  lemma CollideExactly(a: string, b: string, prefix: string)
    ensures CleanKey(a, prefix) == CleanKey(b, prefix) <==> Tokens(a, "", false) == Tokens(b, "", false)
  {
    CleanKeyIsScan(a, prefix);
    CleanKeyIsScan(b, prefix);
    ScanRenders(a, "", false);
    ScanRenders(b, "", false);
    if CleanKey(a, prefix) == CleanKey(b, prefix) {
      assert Scan(a, "", false) == CleanKey(a, prefix)[|prefix|..] == CleanKey(b, prefix)[|prefix|..] ==
             Scan(b, "", false);
      RenderInjective(Tokens(a, "", false), Tokens(b, "", false));
    }
  }

  /** The letters and digits of a key, lowercased. */
  function Letters(s: string): string {
    if s == "" then "" else (if Alnum(s[0]) then [ToLower(s[0])] else "") + Letters(s[1..])
  }

  lemma {:induction false} TokenLetters(s: string, pending: string, started: bool)
    ensures |Tokens(s, pending, started)| == |Letters(s)|
    ensures forall i :: 0 <= i < |Letters(s)| ==> Tokens(s, pending, started)[i].letter == Letters(s)[i]
    decreases |s|
  {
    if s == "" {
    } else if Alnum(s[0]) {
      TokenLetters(s[1..], "", true);
    } else {
      TokenLetters(s[1..], pending + [s[0]], started);
    }
  }

  /** Keys that share a name differ at most in case and separators. */
  lemma CollisionsShareLetters(a: string, b: string, prefix: string)
    requires CleanKey(a, prefix) == CleanKey(b, prefix)
    ensures Letters(a) == Letters(b)
  {
    CollideExactly(a, b, prefix);
    TokenLetters(a, "", false);
    TokenLetters(b, "", false);
  }

  /** The converse fails: for any two letters or digits, one dash between them and one dot between
      them differ in a separator only, and get different names. */
  lemma SeparatorsCanMatter(x: char, y: char, prefix: string)
    requires Alnum(x) && Alnum(y)
    ensures Letters([x, '-', y]) == Letters([x, '.', y])
    ensures CleanKey([x, '-', y], prefix) != CleanKey([x, '.', y], prefix)
  {
    CollideExactly([x, '-', y], [x, '.', y], prefix);
    TokensOfThree(x, '-', y);
    TokensOfThree(x, '.', y);
    assert GapOf(['-'], true) == Dashes(1) && GapOf(['.'], true) == Dot;
    assert Tokens([x, '-', y], "", false)[1] != Tokens([x, '.', y], "", false)[1];
  }

  lemma TokensOfThree(x: char, c: char, y: char)
    requires Alnum(x) && !Alnum(c) && Alnum(y)
    ensures Letters([x, c, y]) == [ToLower(x), ToLower(y)]
    ensures Tokens([x, c, y], "", false) == [Token(Dashes(0), ToLower(x)), Token(GapOf([c], true), ToLower(y))]
  {
    var s := [x, c, y];
    assert s[1..] == [c, y] && [c, y][1..] == [y] && [y][1..] == [];
    assert Letters([y]) == [ToLower(y)] && Letters([c, y]) == [ToLower(y)];
    assert "" + [c] == [c];
    assert Tokens([y], [c], true) == [Token(GapOf([c], true), ToLower(y))];
    assert Tokens([c, y], "", true) == Tokens([y], [c], true);
    assert Tokens(s, "", false) == [Token(GapOf("", false), ToLower(x))] + Tokens([c, y], "", true);
  }

  // ---------- Valid names ----------

  predicate NameLetter(c: char) { Lower(c) || Digit(c) }

  function Labels(s: string): (r: seq<string>)
    ensures |r| > 0
  {
    if s == "" then [""]
    else if s[0] == '.' then [""] + Labels(s[1..])
    else var r := Labels(s[1..]); [[s[0]] + r[0]] + r[1..]
  }

  predicate ValidLabel(l: string) {
    && l != "" && NameLetter(l[0]) && NameLetter(l[|l| - 1])
    && (forall i :: 0 <= i < |l| ==> NameLetter(l[i]) || l[i] == '-')
  }

  /** The host name syntax of section 2.1 of RFC 1123, lowercased, as Kubernetes requires it of
      object names; the bound on the length is apart. */
  predicate ValidSubdomain(s: string) {
    forall i :: 0 <= i < |Labels(s)| ==> ValidLabel(Labels(s)[i])
  }

  /** Where a reader of labels stands. */
  datatype Position = LabelStart | AfterLetter | AfterDash

  predicate Reads(s: string, at: Position) {
    if s == "" then at == AfterLetter
    else if NameLetter(s[0]) then Reads(s[1..], AfterLetter)
    else if s[0] == '-' then at != LabelStart && Reads(s[1..], AfterDash)
    else s[0] == '.' && at == AfterLetter && Reads(s[1..], LabelStart)
  }

  /** The rest of a label, read from the given position. */
  predicate Finishes(l: string, at: Position) {
    && (forall i :: 0 <= i < |l| ==> NameLetter(l[i]) || l[i] == '-')
    && (if l == "" then at == AfterLetter else NameLetter(l[|l| - 1]) && (at == LabelStart ==> NameLetter(l[0])))
  }

  /** What is left of the first label, and the labels after it. */
  ghost predicate ReadsOn(labels: seq<string>, at: Position)
    requires labels != []
  {
    Finishes(labels[0], at) && forall i :: 1 <= i < |labels| ==> ValidLabel(labels[i])
  }

  lemma LetterReadsOn(c: char, r: seq<string>, at: Position)
    requires r != [] && (NameLetter(c) || c == '-')
    ensures var next := if NameLetter(c) then AfterLetter else AfterDash;
            ReadsOn([[c] + r[0]] + r[1..], at) <==> ReadsOn(r, next) && (c == '-' ==> at != LabelStart)
  {
    var all := [[c] + r[0]] + r[1..];
    FinishesStep(c, r[0], at);
    assert all[0] == [c] + r[0];
    assert forall i :: 1 <= i < |r| ==> all[i] == r[i];
  }

  lemma DotReadsOn(r: seq<string>, at: Position)
    requires r != []
    ensures ReadsOn([""] + r, at) <==> at == AfterLetter && ReadsOn(r, LabelStart)
  {
    var all := [""] + r;
    assert forall i :: 0 <= i < |r| ==> r[i] == all[i + 1];
    assert Finishes(r[0], LabelStart) <==> ValidLabel(r[0]);
  }

  lemma {:induction false} ReadsLabels(s: string, at: Position)
    ensures Reads(s, at) <==> ReadsOn(Labels(s), at)
    decreases |s|
  {
    if s == "" {
    } else if NameLetter(s[0]) || s[0] == '-' {
      ReadsLabels(s[1..], if NameLetter(s[0]) then AfterLetter else AfterDash);
      LetterReadsOn(s[0], Labels(s[1..]), at);
    } else if s[0] == '.' {
      ReadsLabels(s[1..], LabelStart);
      DotReadsOn(Labels(s[1..]), at);
    } else {
      assert Labels(s)[0][0] == s[0];
    }
  }

  lemma FinishesStep(c: char, l: string, at: Position)
    requires NameLetter(c) || c == '-'
    ensures Finishes([c] + l, at) <==>
            Finishes(l, if NameLetter(c) then AfterLetter else AfterDash) && (c == '-' ==> at != LabelStart)
  {
    var m := [c] + l;
    assert m[0] == c && forall i :: 0 <= i < |l| ==> m[i + 1] == l[i];
    assert l != "" ==> m[|m| - 1] == l[|l| - 1];
  }

  lemma ReadsValid(s: string)
    ensures Reads(s, LabelStart) <==> ValidSubdomain(s)
  {
    ReadsLabels(s, LabelStart);
    assert Finishes(Labels(s)[0], LabelStart) <==> ValidLabel(Labels(s)[0]);
  }

  lemma {:induction false} ReadsDashes(g: string, c: char, rest: string, at: Position)
    requires AllDashes(g) && NameLetter(c) && (g != "" ==> at != LabelStart)
    ensures Reads(g + [c] + rest, at) == Reads(rest, AfterLetter)
    decreases |g|
  {
    var s := g + [c] + rest;
    if g == "" {
      assert s[1..] == rest;
    } else {
      assert s[1..] == g[1..] + [c] + rest;
      ReadsDashes(g[1..], c, rest, AfterDash);
    }
  }

  lemma ReadsToken(pending: string, c: char, rest: string, at: Position)
    requires NameLetter(c) && (at == AfterLetter || (at == AfterDash && AllDashes(pending)))
    ensures Reads(Glue(pending, true) + [c] + rest, at) == Reads(rest, AfterLetter)
  {
    if AllDashes(pending) {
      ReadsDashes(pending, c, rest, at);
    } else {
      var s := "." + [c] + rest;
      assert s[1..] == [c] + rest && ([c] + rest)[1..] == rest;
    }
  }

  lemma {:induction false} ScanReads(s: string, pending: string)
    ensures Reads(Scan(s, pending, true), AfterLetter)
    decreases |s|
  {
    if s == "" {
    } else if Alnum(s[0]) {
      ReadsToken(pending, ToLower(s[0]), Scan(s[1..], "", true), AfterLetter);
      ScanReads(s[1..], "");
    } else {
      ScanReads(s[1..], pending + [s[0]]);
    }
  }

  predicate HasAlnum(s: string) {
    exists i :: 0 <= i < |s| && Alnum(s[i])
  }

  /** After a prefix that ends in a dash, the scan completes a name if and only if the key has a
      letter or digit. */
  lemma {:induction false} FirstScanReads(s: string, pending: string)
    ensures Reads(Scan(s, pending, false), AfterDash) <==> HasAlnum(s)
    decreases |s|
  {
    if s == "" {
    } else if Alnum(s[0]) {
      assert HasAlnum(s);
      var g := Glue(pending, false);
      ReadsDashes(g, ToLower(s[0]), Scan(s[1..], "", true), AfterDash);
      ScanReads(s[1..], "");
    } else {
      FirstScanReads(s[1..], pending + [s[0]]);
      if HasAlnum(s) {
        var i :| 0 <= i < |s| && Alnum(s[i]);
        assert Alnum(s[1..][i - 1]);
      }
      if HasAlnum(s[1..]) {
        var i :| 0 <= i < |s[1..]| && Alnum(s[1..][i]);
        assert Alnum(s[i + 1]);
      }
    }
  }

  predicate NamePrefix(prefix: string) {
    prefix == LEASE_PREFIX || prefix == KEY_PREFIX
  }

  lemma {:induction false} ReadsLetters(w: string, rest: string, at: Position)
    requires w != "" && forall i :: 0 <= i < |w| ==> NameLetter(w[i])
    ensures Reads(w + rest, at) == Reads(rest, AfterLetter)
    decreases |w|
  {
    assert (w + rest)[1..] == w[1..] + rest;
    if |w| == 1 {
      assert w[1..] + rest == rest;
    } else {
      ReadsLetters(w[1..], rest, AfterLetter);
    }
  }

  lemma {:induction false} ReadsLeasePrefix(rest: string)
    ensures Reads(LEASE_PREFIX + rest, LabelStart) == Reads(rest, AfterDash)
  {
    var tail := "-" + rest;
    var t := "lock" + tail;
    assert LEASE_PREFIX + rest == "caddy" + ("-" + t);
    ReadsLetters("caddy", "-" + t, LabelStart);
    assert ("-" + t)[1..] == t;
    ReadsLetters("lock", tail, AfterDash);
    assert tail[1..] == rest;
  }

  lemma {:induction false} ReadsKeyPrefix(rest: string)
    ensures Reads(KEY_PREFIX + rest, LabelStart) == Reads(rest, AfterDash)
  {
    var tail := "-" + rest;
    var t := "ingress" + ("-" + tail);
    assert KEY_PREFIX + rest == "caddy" + ("." + t);
    ReadsLetters("caddy", "." + t, LabelStart);
    assert ("." + t)[1..] == t;
    ReadsLetters("ingress", "-" + tail, LabelStart);
    assert ("-" + tail)[1..] == tail && tail[1..] == rest;
  }

  /** The limit that Kubernetes puts on the length of object names. */
  const MAX_NAME: nat := 253

  predicate ValidObjectName(s: string) {
    ValidSubdomain(s) && |s| <= MAX_NAME
  }

  /** With either shipped prefix, the name has the required form if and only if the key has an ASCII
      letter or digit, and is then a valid object name if it is not too long; keys that leave room for
      the prefix never are. */
  lemma ValidExactly(key: string, prefix: string)
    requires NamePrefix(prefix)
    ensures ValidSubdomain(CleanKey(key, prefix)) <==> HasAlnum(key)
    ensures ValidObjectName(CleanKey(key, prefix)) <==> HasAlnum(key) && |prefix| + |Clean(key)| <= MAX_NAME
    ensures |prefix| + |key| <= MAX_NAME ==> (ValidObjectName(CleanKey(key, prefix)) <==> HasAlnum(key))
  {
    CleanKeyIsScan(key, prefix);
    ReadsValid(CleanKey(key, prefix));
    ReadsLeasePrefix(Scan(key, "", false));
    ReadsKeyPrefix(Scan(key, "", false));
    FirstScanReads(key, "");
    NoLonger(key, prefix);
  }

  // ---------- Characters and examples ----------

  /** The ASCII letters and digits by their codes; upper-case letters go one-to-one onto their
      lower-case forms, and nothing else changes. */
  lemma AsciiExactly(c: char)
    ensures var n := c as int;
            && (Alnum(c) <==> 48 <= n <= 57 || 65 <= n <= 90 || 97 <= n <= 122)
            && ToLower(c) as int == if 65 <= n <= 90 then n + 32 else n
  {
  }

  predicate Word(w: string) {
    w != "" && forall i :: 0 <= i < |w| ==> Alnum(w[i])
  }

  lemma {:induction false} ScanWord(w: string, rest: string)
    requires forall i :: 0 <= i < |w| ==> Alnum(w[i])
    ensures Scan(w + rest, "", true) == ToLowerAll(w) + Scan(rest, "", true)
    decreases |w|
  {
    if w == "" {
      assert w + rest == rest;
    } else {
      assert (w + rest)[1..] == w[1..] + rest;
      ScanWord(w[1..], rest);
    }
  }

  lemma Regroup(g: string, x: string, y: string, r: string)
    ensures g + x + (y + r) == g + ((x + y) + r)
  {
  }

  lemma {:induction false} ScanFront(g: string, w: string, rest: string, started: bool)
    requires Separators(g) && Word(w)
    ensures Scan(g + (w + rest), "", started) == Glue(g, started) + (ToLowerAll(w) + Scan(rest, "", true))
  {
    var others := w[1..] + rest;
    ScanToken(g, w[0], others, started);
    assert g + (w + rest) == g + [w[0]] + others;
    ScanWord(w[1..], rest);
    Regroup(Glue(g, started), [ToLower(w[0])], ToLowerAll(w[1..]), Scan(rest, "", true));
  }

  lemma {:induction false} ScanEnd(end: string)
    requires Separators(end)
    ensures Scan(end, "", true) == ""
  {
    ScanSeparators(end, "", "", true);
    assert end + "" == end;
  }

  /** Separators in front and at the end vanish, except dashes in front; between two words dashes stay
      if there is nothing else, and anything else becomes one dot. */
  lemma {:induction false} CleanJoins(front: string, a: string, between: string, b: string, end: string)
    requires Separators(front) && Word(a) && Separators(between) && between != "" && Word(b) && Separators(end)
    ensures Clean(front + (a + (between + (b + end)))) ==
            (if AllDashes(front) then front else "")
            + (ToLowerAll(a) + ((if AllDashes(between) then between else ".") + ToLowerAll(b)))
  {
    var rest := between + (b + end);
    CleanIsScan(front + (a + rest));
    ScanFront(front, a, rest, false);
    ScanFront(between, b, end, true);
    ScanEnd(end);
    assert ToLowerAll(b) + "" == ToLowerAll(b);
  }
}
