/** Kubernetes path rules, the Caddy patterns they become, and what both accept. */
module PathMatching {
  import opened Wrappers
  import opened Resources

  // ---------- The translation ----------

  /** strings.TrimSuffix(path, "/"). */
  function TrimSlash(path: string): string {
    if path != "" && path[|path| - 1] == '/' then path[..|path| - 1] else path
  }

  /** The path matcher emitted for a rule's path, if any. */
  function Patterns(p: HTTPPath): Option<seq<string>> {
    if p.path == "" then None
    else if p.pathType == Prefix then
      var q := TrimSlash(p.path);
      if q == "" then Some(["/*"]) else Some([q, q + "/*"])
    else Some([p.path])
  }

  /** How Caddy matches a pattern whose only wildcard is a trailing star. */
  predicate PatternAccepts(pattern: string, path: string) {
    if pattern != "" && pattern[|pattern| - 1] == '*' then pattern[..|pattern| - 1] <= path
    else path == pattern
  }

  predicate PathAccepts(patterns: Option<seq<string>>, path: string) {
    patterns.None? || exists i :: 0 <= i < |patterns.value| && PatternAccepts(patterns.value[i], path)
  }

  /** One trailing slash goes, if there is one. */
  lemma TrimsOne(path: string)
    ensures if path != "" && path[|path| - 1] == '/' then path == TrimSlash(path) + "/" else path == TrimSlash(path)
  {
  }

  // ---------- Path elements ----------

  function ElementLength(s: string): (n: nat)
    ensures n <= |s| && (forall i :: 0 <= i < n ==> s[i] != '/') && (n < |s| ==> s[n] == '/')
  {
    if s == "" || s[0] == '/' then 0 else 1 + ElementLength(s[1..])
  }

  /** The elements of a path, split by '/'. */
  function Elements(s: string): seq<string>
    decreases |s|
  {
    if s == "" then []
    else if s[0] == '/' then Elements(s[1..])
    else [s[..ElementLength(s)]] + Elements(s[ElementLength(s)..])
  }

  predicate Element(e: string) {
    e != "" && forall i :: 0 <= i < |e| ==> e[i] != '/'
  }

  function Join(elements: seq<string>): string {
    if elements == [] then "" else "/" + elements[0] + Join(elements[1..])
  }

  predicate NoDoubleSlash(s: string) {
    forall i :: 0 <= i < |s| - 1 ==> !(s[i] == '/' && s[i + 1] == '/')
  }

  /** A path as requests and rules have it: it starts with a slash and has no empty elements. */
  predicate Rooted(s: string) {
    s != "" && s[0] == '/' && NoDoubleSlash(s)
  }

  lemma {:induction false} ElementsAreElements(s: string)
    ensures forall i :: 0 <= i < |Elements(s)| ==> Element(Elements(s)[i])
    decreases |s|
  {
    if s == "" {
    } else if s[0] == '/' {
      ElementsAreElements(s[1..]);
    } else {
      ElementsAreElements(s[ElementLength(s)..]);
    }
  }

  lemma SuffixNoDoubleSlash(s: string, k: nat)
    requires NoDoubleSlash(s) && k <= |s|
    ensures NoDoubleSlash(s[k..])
  {
    var t := s[k..];
    forall i | 0 <= i < |t| - 1 ensures !(t[i] == '/' && t[i + 1] == '/') {
      assert t[i] == s[k + i] && t[i + 1] == s[(k + i) + 1];
    }
  }

  lemma {:induction false} FirstElement(s: string) returns (e: string, tail: string)
    requires Rooted(s) && |s| > 1
    ensures s == "/" + e + tail && Element(e) && (tail == "" || Rooted(tail))
    ensures Elements(s) == [e] + Elements(tail)
  {
    var rest := s[1..];
    assert s[0 + 1] == rest[0];
    var n := ElementLength(rest);
    e, tail := rest[..n], rest[n..];
    assert Elements(rest) == [e] + Elements(tail);
    assert tail == s[1 + n..];
    SuffixNoDoubleSlash(s, 1 + n);
  }

  lemma {:induction false} TrimAfterElement(e: string, tail: string)
    requires Element(e)
    ensures TrimSlash("/" + e + tail) == "/" + e + TrimSlash(tail)
  {
    var s := "/" + e + tail;
    if tail == "" {
      assert s[|s| - 1] == e[|e| - 1];
    } else {
      assert s[|s| - 1] == tail[|tail| - 1];
    }
  }

  /** A rooted path is its elements joined, up to one trailing slash. */
  lemma {:induction false} TrimIsJoin(s: string)
    requires s == "" || Rooted(s)
    ensures TrimSlash(s) == Join(Elements(s))
    decreases |s|
  {
    if |s| > 1 {
      var e, tail := FirstElement(s);
      TrimIsJoin(tail);
      TrimAfterElement(e, tail);
    }
  }

  // ---------- Element-wise prefixes are string prefixes up to a slash ----------

  /** An element is ended by the first slash after it. */
  lemma ElementDetermined(a: string, u: string, b: string, v: string)
    requires Element(a) && Element(b) && u != "" && u[0] == '/' && v != "" && v[0] == '/'
    ensures a + u <= b + v <==> a == b && u <= v
  {
    if a + u <= b + v {
      assert (a + u)[|a|] == (b + v)[|a|] == '/';
      assert forall i :: 0 <= i < |a| ==> (b + v)[i] == (a + u)[i] == a[i];
      assert (b + v)[|b|] == '/' && forall i :: 0 <= i < |b| ==> (b + v)[i] == b[i];
      assert |a| == |b|;
      assert a == (a + u)[..|a|] == (b + v)[..|b|] == b;
      assert u == (a + u)[|a|..] && v == (b + v)[|b|..];
    }
  }

  lemma PrefixByHead(a: seq<string>, b: seq<string>)
    requires a != [] && b != []
    ensures a <= b <==> a[0] == b[0] && a[1..] <= b[1..]
  {
    assert a == [a[0]] + a[1..] && b == [b[0]] + b[1..];
  }

  lemma {:induction false} JoinPrefix(a: seq<string>, b: seq<string>)
    requires forall i :: 0 <= i < |a| ==> Element(a[i])
    requires forall i :: 0 <= i < |b| ==> Element(b[i])
    ensures Join(a) + "/" <= Join(b) + "/" <==> a <= b
  {
    if a == [] {
      assert Join(a) + "/" == "/";
      if b != [] { assert (Join(b) + "/")[0] == '/'; }
    } else if b == [] {
      assert |Join(a)| > 0;
    } else {
      var u, v := Join(a[1..]) + "/", Join(b[1..]) + "/";
      JoinPrefix(a[1..], b[1..]);
      assert u[0] == '/' && v[0] == '/';
      ElementDetermined(a[0], u, b[0], v);
      assert Join(a) + "/" == "/" + (a[0] + u) && Join(b) + "/" == "/" + (b[0] + v);
      PrefixTail(a[0] + u, b[0] + v);
      PrefixByHead(a, b);
    }
  }

  lemma PrefixTail(x: string, y: string)
    ensures "/" + x <= "/" + y <==> x <= y
  {
    assert ("/" + x)[1..] == x && ("/" + y)[1..] == y;
    if "/" + x <= "/" + y { assert x == ("/" + y)[1..|x| + 1] == y[..|x|]; }
  }

  /** The two patterns of a Prefix rule, in one comparison. */
  lemma PrefixPatternsAccept(p: HTTPPath, path: string)
    requires p.pathType == Prefix && p.path != "" && path != "" && path[0] == '/'
    ensures var q := TrimSlash(p.path);
            PathAccepts(Patterns(p), path) <==> (q != "" && PatternAccepts(q, path)) || q + "/" <= path
  {
    var q := TrimSlash(p.path);
    var patterns := Patterns(p).value;
    assert (q + "/*")[..|q + "/*"| - 1] == q + "/";
    if q == "" {
      assert q + "/*" == "/*" == patterns[0];
      assert PatternAccepts(patterns[0], path);
    } else {
      assert patterns[0] == q && patterns[1] == q + "/*";
      if PatternAccepts(q, path) { assert PatternAccepts(patterns[0], path); }
      if q + "/" <= path { assert PatternAccepts(patterns[1], path); }
    }
  }

  lemma TrimmedPrefix(q: string, path: string)
    requires Rooted(path) && (q != "" ==> q[|q| - 1] != '/')
    ensures q + "/" <= TrimSlash(path) + "/" <==> path == q || q + "/" <= path
  {
    var r := TrimSlash(path);
    assert path == r || path == r + "/";
    if q + "/" <= r + "/" {
      if |q| == |r| {
        assert q == (r + "/")[..|q|] == r;
      } else {
        assert q + "/" == (r + "/")[..|q| + 1] == r[..|q| + 1] == path[..|q| + 1];
      }
    }
    if path == q { assert r == q; }
    if q + "/" <= path && path == r { assert q + "/" == path[..|q| + 1] == (r + "/")[..|q| + 1]; }
  }

  predicate NoStar(s: string) { '*' !in s }

  /** A Prefix rule accepts exactly the request paths whose elements start with its own, as the
      networking.k8s.io/v1 Ingress path types define it; the root rule accepts every path. */
  lemma PrefixMeaning(p: HTTPPath, path: string)
    requires p.pathType == Prefix && Rooted(p.path) && NoStar(p.path) && Rooted(path)
    ensures PathAccepts(Patterns(p), path) <==> Elements(p.path) <= Elements(path)
  {
    var q := TrimSlash(p.path);
    PrefixPatternsAccept(p, path);
    TrimIsJoin(p.path);
    TrimIsJoin(path);
    ElementsAreElements(p.path);
    ElementsAreElements(path);
    JoinPrefix(Elements(p.path), Elements(path));
    TrimmedKeepsNoSlash(p.path);
    TrimmedPrefix(q, path);
    if q != "" { assert q[|q| - 1] in p.path; }
  }

  lemma TrimmedKeepsNoSlash(s: string)
    requires Rooted(s)
    ensures var q := TrimSlash(s); q != "" ==> q[|q| - 1] != '/'
  {
    var q := TrimSlash(s);
    if q != "" && q != s {
      var i := |s| - 2;
      assert s[i + 1] == '/';
    }
  }

  /** What a rule's path says about a request path: nothing, an element-wise prefix, a literal prefix
      ended by a star, or the very path. */
  predicate RuleTakes(p: HTTPPath, path: string) {
    if p.path == "" then true
    else if p.pathType == Prefix then Elements(p.path) <= Elements(path)
    else if p.path[|p.path| - 1] == '*' then p.path[..|p.path| - 1] <= path
    else path == p.path
  }

  /** The patterns of every rule accept exactly what the rule says. */
  lemma PatternsMean(p: HTTPPath, path: string)
    requires Rooted(path) && (p.pathType == Prefix ==> p.path == "" || (Rooted(p.path) && NoStar(p.path)))
    ensures PathAccepts(Patterns(p), path) <==> RuleTakes(p, path)
  {
    if p.path != "" {
      if p.pathType == Prefix {
        PrefixMeaning(p, path);
      } else {
        assert PathAccepts(Patterns(p), path) <==> PatternAccepts(Patterns(p).value[0], path);
      }
    }
  }
}
