/** The key-value view that certmagic gets over Kubernetes Secrets. */
module SecretStorage {
  import opened Wrappers
  import opened Keys
  import opened KeyNames

  type Bytes = seq<bv8>

  /** A Secret that carries the label the storage selects by. */
  datatype Secret = Secret(value: Bytes, created: int)

  datatype StorageError = NotExist | NotFound | Unavailable

  datatype KeyInfo = KeyInfo(key: string, modified: int, size: nat, isTerminal: bool)

  /** What becomes of a write request: carried out and answered, refused, or carried out with its
      answer lost. */
  datatype Delivery = Done | Refused | ReplyLost

  /** Whether the value of a Store reaches the API server. */
  predicate Lands(taken: bool, create: Delivery, gone: bool, update: Delivery) {
    if taken then create.Done? && !gone && !update.Refused? else !create.Refused?
  }

  function Name(key: string): string {
    CleanKey(key, KEY_PREFIX)
  }

  // ---------- The reference: a map on names, and a history of calls ----------

  /** A call that took effect; a Store with the API server's time. */
  datatype Call = Stored(key: string, value: Bytes, at: int) | Deleted(key: string)

  /** The API server sets the creation time of a Secret once. */
  function Effect(m: map<string, Secret>, call: Call): map<string, Secret> {
    var name := Name(call.key);
    match call
    case Stored(_, value, at) => m[name := Secret(value, if name in m then m[name].created else at)]
    case Deleted(_) => m - {name}
  }

  function Replay(calls: seq<Call>): map<string, Secret> {
    if calls == [] then map[] else Effect(Replay(calls[..|calls| - 1]), calls[|calls| - 1])
  }

  /** Keys are the same when they have the same tokens; no name is computed here. */
  predicate SameKey(a: string, b: string) {
    Tokens(a, "", false) == Tokens(b, "", false)
  }

  /** The latest Store of a key, unless a Delete of it came later. */
  function LatestStore(calls: seq<Call>, key: string): Option<Call> {
    if calls == [] then None else
    var last := calls[|calls| - 1];
    if !SameKey(last.key, key) then LatestStore(calls[..|calls| - 1], key)
    else if last.Stored? then Some(last) else None
  }

  function Latest(calls: seq<Call>, key: string): Option<Bytes> {
    match LatestStore(calls, key)
    case Some(Stored(_, value, _)) => Some(value)
    case _ => None
  }

  /** The time of the first Store of a key since its last Delete. */
  function Created(calls: seq<Call>, key: string): Option<int> {
    if calls == [] then None else
    var front, last := calls[..|calls| - 1], calls[|calls| - 1];
    if !SameKey(last.key, key) then Created(front, key)
    else if last.Deleted? then None
    else if Created(front, key).Some? then Created(front, key) else Some(last.at)
  }

  lemma LatestSnoc(calls: seq<Call>, call: Call)
    ensures LatestStore(calls + [call], call.key) == if call.Stored? then Some(call) else None
    ensures forall key :: !SameKey(key, call.key) ==> LatestStore(calls + [call], key) == LatestStore(calls, key)
  {
    assert (calls + [call])[..|calls|] == calls;
  }

  lemma ReplaySnoc(calls: seq<Call>, call: Call)
    ensures Replay(calls + [call]) == Effect(Replay(calls), call)
  {
    assert (calls + [call])[..|calls|] == calls;
  }

  /** After any history the map answers with the latest Store of the key, and with the time of the
      first since the key was last deleted. */
  lemma {:induction false} ReplayIsLatest(calls: seq<Call>, key: string)
    ensures Name(key) in Replay(calls) <==> Latest(calls, key).Some?
    ensures Name(key) in Replay(calls) <==> Created(calls, key).Some?
    ensures Name(key) in Replay(calls) ==>
              Replay(calls)[Name(key)] == Secret(Latest(calls, key).value, Created(calls, key).value)
  {
    if calls != [] {
      ReplayIsLatest(calls[..|calls| - 1], key);
      CollideExactly(calls[|calls| - 1].key, key, KEY_PREFIX);
    }
  }

  // ---------- Creation time and modification time ----------

  /** The i-th call stored the key when it was absent, and it was not deleted since. */
  ghost predicate BeginsLife(calls: seq<Call>, key: string, i: nat) {
    && i < |calls| && calls[i].Stored? && SameKey(calls[i].key, key)
    && LatestStore(calls[..i], key).None?
    && (forall j :: i < j < |calls| && SameKey(calls[j].key, key) ==> calls[j].Stored?)
  }

  lemma {:induction false} CreatedOrNot(calls: seq<Call>, key: string)
    ensures LatestStore(calls, key).Some? <==> Created(calls, key).Some?
  {
    if calls != [] { CreatedOrNot(calls[..|calls| - 1], key); }
  }

  lemma {:induction false} LifeBegins(calls: seq<Call>, key: string, i: nat)
    requires BeginsLife(calls, key, i)
    ensures Created(calls, key) == Some(calls[i].at)
  {
    var n := |calls| - 1;
    if i == n {
      CreatedOrNot(calls[..n], key);
    } else {
      assert calls[..n][..i] == calls[..i];
      LifeBegins(calls[..n], key, i);
    }
  }

  lemma {:induction false} LifeOf(calls: seq<Call>, key: string) returns (i: nat)
    requires LatestStore(calls, key).Some?
    ensures BeginsLife(calls, key, i)
  {
    var n := |calls| - 1;
    if SameKey(calls[n].key, key) && LatestStore(calls[..n], key).None? {
      i := n;
    } else {
      i := LifeOf(calls[..n], key);
      assert calls[..n][..i] == calls[..i];
    }
  }

  /** The creation time of a stored key is the time of the first Store since its last Delete. */
  lemma CreatedByFirstStore(calls: seq<Call>, key: string) returns (first: nat)
    requires Latest(calls, key).Some?
    ensures BeginsLife(calls, key, first) && Created(calls, key) == Some(calls[first].at)
  {
    first := LifeOf(calls, key);
    LifeBegins(calls, key, first);
  }

  lemma {:induction false} LatestIndex(calls: seq<Call>, key: string) returns (k: nat)
    requires LatestStore(calls, key).Some?
    ensures k < |calls| && calls[k].Stored? && SameKey(calls[k].key, key) && LatestStore(calls, key) == Some(calls[k])
    ensures forall j :: k < j < |calls| ==> !SameKey(calls[j].key, key)
  {
    var n := |calls| - 1;
    if SameKey(calls[n].key, key) { k := n; } else { k := LatestIndex(calls[..n], key); }
  }

  /** The API server's time does not go back from one Store to the next. */
  ghost predicate InTime(calls: seq<Call>) {
    forall i, j :: 0 <= i < j < |calls| && calls[i].Stored? && calls[j].Stored? ==> calls[i].at <= calls[j].at
  }

  /** Every Store of the key since it was created came at the time of its creation. */
  ghost predicate Unmodified(calls: seq<Call>, key: string, first: nat)
    requires BeginsLife(calls, key, first)
  {
    forall j :: first <= j < |calls| && SameKey(calls[j].key, key) ==>
      calls[j].Stored? && calls[j].at == calls[first].at
  }

  /** The creation time is the time of the latest Store if and only if no Store since came at another
      time. */
  lemma ModifiedExactly(calls: seq<Call>, key: string, first: nat)
    requires BeginsLife(calls, key, first)
    ensures LatestStore(calls, key).Some? && LatestStore(calls, key).value.Stored?
    ensures Created(calls, key) == Some(calls[first].at)
    ensures Unmodified(calls, key, first) ==> Created(calls, key) == Some(LatestStore(calls, key).value.at)
    ensures InTime(calls) && Created(calls, key) == Some(LatestStore(calls, key).value.at) ==>
            Unmodified(calls, key, first)
  {
    LifeBegins(calls, key, first);
    CreatedOrNot(calls, key);
    var k := LatestIndex(calls, key);
    if InTime(calls) && calls[first].at == calls[k].at {
      forall j | first <= j < |calls| && SameKey(calls[j].key, key)
        ensures calls[j].Stored? && calls[j].at == calls[first].at
      {
        if first < j < k { assert calls[first].at <= calls[j].at <= calls[k].at; }
      }
    }
  }

  /** Two Stores of a key are enough for the two times to differ. */
  lemma SecondStoreUnseen(key: string, value: Bytes, other: Bytes, at: int, later: int)
    requires at < later
    ensures var calls := [Stored(key, value, at), Stored(key, other, later)];
            Created(calls, key) == Some(at) && LatestStore(calls, key) == Some(Stored(key, other, later))
  {
    var calls := [Stored(key, value, at), Stored(key, other, later)];
    assert calls[..0] == [] && LatestStore(calls[..0], key).None?;
    LifeBegins(calls, key, 0);
  }

  // ---------- Listing ----------

  /** A name as Store makes it. */
  predicate Canonical(name: string) {
    KEY_PREFIX <= name && Name(name[|KEY_PREFIX|..]) == name
  }

  lemma NamesAreCanonical(key: string)
    ensures Canonical(Name(key))
  {
    NameRoundTrip(key, KEY_PREFIX);
  }

  /** A key that literally starts with p is found under p. */
  lemma ListedUnderPrefix(p: string, r: string)
    ensures Name(p) <= Name(p + r)
  {
    PrefixCompatible(p, r, KEY_PREFIX);
  }

  ghost predicate Distinct<T>(s: seq<T>) {
    forall i, j :: 0 <= i < j < |s| ==> s[i] != s[j]
  }

  /** The loop of List: exactly the names under `wanted`, with the key prefix cut off. */
  method Matching(wanted: string, items: seq<string>) returns (keys: seq<string>)
    requires KEY_PREFIX <= wanted
    ensures forall k :: k in keys <==> KEY_PREFIX + k in items && wanted <= KEY_PREFIX + k
    ensures Distinct(items) ==> Distinct(keys)
  {
    keys := [];
    for i := 0 to |items|
      invariant forall k :: k in keys <==> KEY_PREFIX + k in items[..i] && wanted <= KEY_PREFIX + k
      invariant Distinct(items) ==> Distinct(keys)
    {
      assert items[..i + 1] == items[..i] + [items[i]];
      if wanted <= items[i] {
        var key := items[i][|KEY_PREFIX|..];
        assert KEY_PREFIX <= items[i] && KEY_PREFIX + key == items[i];
        assert forall k :: KEY_PREFIX + k == items[i] ==> k == (KEY_PREFIX + k)[|KEY_PREFIX|..] == key;
        assert Distinct(items) ==> items[i] !in items[..i];
        keys := keys + [key];
      }
    }
    assert items[..|items|] == items;
  }

  /** A stored key that is its own clean form, and lies under the clean form of the prefix. */
  ghost predicate Listed(history: seq<Call>, prefix: string, k: string) {
    Latest(history, k).Some? && Clean(k) == k && Clean(prefix) <= k
  }

  lemma {:induction false} MatchExactly(secrets: map<string, Secret>, history: seq<Call>, prefix: string, k: string)
    requires secrets == Replay(history) && forall name :: name in secrets ==> Canonical(name)
    ensures KEY_PREFIX + k in secrets && Name(prefix) <= KEY_PREFIX + k <==> Listed(history, prefix, k)
  {
    assert (KEY_PREFIX + k)[|KEY_PREFIX|..] == k;
    ReplayIsLatest(history, k);
    CutPrefix(Clean(prefix), k);
    if Canonical(KEY_PREFIX + k) {
      assert KEY_PREFIX + Clean(k) == KEY_PREFIX + k;
      assert Clean(k) == (KEY_PREFIX + Clean(k))[|KEY_PREFIX|..] == k;
    }
  }

  lemma CutPrefix(a: string, b: string)
    ensures KEY_PREFIX + a <= KEY_PREFIX + b <==> a <= b
  {
    var x, y := KEY_PREFIX + a, KEY_PREFIX + b;
    assert x[|KEY_PREFIX|..] == a && y[|KEY_PREFIX|..] == b;
    if x <= y { assert a == x[|KEY_PREFIX|..] == y[|KEY_PREFIX|..|x|] == b[..|a|]; }
  }

  /** Every key found names the very secret it came from, and every stored key that literally
      starts with the prefix is found. */
  lemma {:induction false} MatchingMeans(secrets: map<string, Secret>, history: seq<Call>, prefix: string,
                                         keys: seq<string>)
    requires secrets == Replay(history) && forall name :: name in secrets ==> Canonical(name)
    requires forall k :: k in keys <==> KEY_PREFIX + k in secrets && Name(prefix) <= KEY_PREFIX + k
    ensures forall k :: k in keys <==> Listed(history, prefix, k)
    ensures forall k :: k in keys ==> Name(k) == KEY_PREFIX + k
    ensures forall r :: Latest(history, prefix + r).Some? ==> Clean(prefix + r) in keys
  {
    forall k ensures k in keys <==> Listed(history, prefix, k) {
      MatchExactly(secrets, history, prefix, k);
    }
    forall r | Latest(history, prefix + r).Some? ensures Clean(prefix + r) in keys {
      ReplayIsLatest(history, prefix + r);
      ListedUnderPrefix(prefix, r);
      assert KEY_PREFIX + Clean(prefix + r) == Name(prefix + r);
    }
  }

  // ---------- The storage ----------

  class SecretStorage {
    var secrets: map<string, Secret>

    /** The Store and Delete calls that took effect, in order. */
    ghost var history: seq<Call>

    /** The secrets are what the history made of them, under names that Store makes. */
    ghost predicate Valid()
      reads this
    {
      secrets == Replay(history) && forall name :: name in secrets ==> Canonical(name)
    }

    constructor ()
      ensures Valid() && secrets == map[] && history == []
    {
      secrets, history := map[], [];
    }

    method Exists(key: string, fault: bool) returns (found: bool)
      requires Valid()
      ensures found <==> !fault && Latest(history, key).Some?
    {
      ReplayIsLatest(history, key);
      found := !fault && Name(key) in secrets;
    }

    /** Creates, and falls back to an unconditional update if the name is taken; `gone` if somebody
        deletes the Secret in between. */
    method Store(key: string, value: Bytes, now: int, create: Delivery, gone: bool, update: Delivery)
      returns (err: Option<StorageError>)
      requires Valid()
      modifies this
      ensures Valid()
      ensures var taken := Latest(old(history), key).Some?;
              && err == (if !create.Done? || (taken && !update.Done?) then Some(Unavailable)
                         else if taken && gone then Some(NotFound) else None)
              && history == old(history)
                            + (if taken && create.Done? && gone then [Deleted(key)] else [])
                            + (if Lands(taken, create, gone, update) then [Stored(key, value, now)] else [])
      ensures err.None? ==> Latest(history, key) == Some(value)
      ensures create.ReplyLost? && Latest(old(history), key).None? ==> Latest(history, key) == Some(value)
      ensures create.ReplyLost? && Latest(old(history), key).Some? ==> history == old(history)
      ensures create.Done? && !gone && update.ReplyLost? ==> Latest(history, key) == Some(value)
      ensures err.Some? && !gone && !create.ReplyLost? && !update.ReplyLost? ==>
                Latest(history, key) == Latest(old(history), key)
      ensures Latest(old(history), key).Some? && create.Done? && gone ==> Latest(history, key).None?
      ensures forall other :: !SameKey(other, key) ==> LatestStore(history, other) == LatestStore(old(history), other)
      ensures forall name :: name != Name(key) ==>
                (name in secrets <==> name in old(secrets)) && (name in secrets ==> secrets[name] == old(secrets)[name])
    {
      var name := Name(key);
      ReplayIsLatest(history, key);
      if create.Refused? { return Some(Unavailable); }
      if name !in secrets {
        Put(key, value, now);
        return if create.Done? then None else Some(Unavailable);
      }
      if !create.Done? { return Some(Unavailable); }
      if gone { Remove(key); }
      if update.Refused? { return Some(Unavailable); }
      if !gone { Put(key, value, now); }
      err := if !update.Done? then Some(Unavailable) else if gone then Some(NotFound) else None;
    }

    /** The API server creates or replaces a Secret. */
    method Put(key: string, value: Bytes, now: int)
      requires Valid()
      modifies this
      ensures Valid() && history == old(history) + [Stored(key, value, now)]
      ensures Latest(history, key) == Some(value)
      ensures forall other :: !SameKey(other, key) ==> LatestStore(history, other) == LatestStore(old(history), other)
      ensures secrets == Effect(old(secrets), Stored(key, value, now))
    {
      NamesAreCanonical(key);
      ReplaySnoc(history, Stored(key, value, now));
      LatestSnoc(history, Stored(key, value, now));
      secrets := Effect(secrets, Stored(key, value, now));
      history := history + [Stored(key, value, now)];
    }

    /** The API server removes a Secret. */
    method Remove(key: string)
      requires Valid()
      modifies this
      ensures Valid() && history == old(history) + [Deleted(key)]
      ensures Latest(history, key).None?
      ensures forall other :: !SameKey(other, key) ==> LatestStore(history, other) == LatestStore(old(history), other)
      ensures secrets == Effect(old(secrets), Deleted(key))
    {
      ReplaySnoc(history, Deleted(key));
      LatestSnoc(history, Deleted(key));
      secrets := secrets - {Name(key)};
      history := history + [Deleted(key)];
    }

    method Load(key: string, fault: bool) returns (r: Result<Bytes, StorageError>)
      requires Valid()
      ensures fault ==> r == Err(Unavailable)
      ensures !fault && Latest(history, key).None? ==> r == Err(NotExist)
      ensures !fault && Latest(history, key).Some? ==> r == Ok(Latest(history, key).value)
    {
      ReplayIsLatest(history, key);
      if fault { return Err(Unavailable); }
      if Name(key) !in secrets { return Err(NotExist); }
      return Ok(secrets[Name(key)].value);
    }

    method Delete(key: string, request: Delivery) returns (err: Option<StorageError>)
      requires Valid()
      modifies this
      ensures Valid()
      ensures err == if !request.Done? then Some(Unavailable)
                     else if Latest(old(history), key).Some? then None else Some(NotFound)
      ensures var lands := !request.Refused? && Latest(old(history), key).Some?;
              && history == (if lands then old(history) + [Deleted(key)] else old(history))
              && secrets == (if lands then Effect(old(secrets), Deleted(key)) else old(secrets))
      ensures !request.Refused? ==> Latest(history, key).None?
      ensures request.Refused? ==> Latest(history, key) == Latest(old(history), key)
      ensures forall other :: !SameKey(other, key) ==> LatestStore(history, other) == LatestStore(old(history), other)
    {
      ReplayIsLatest(history, key);
      if request.Refused? { return Some(Unavailable); }
      err := if request.ReplyLost? then Some(Unavailable) else if Name(key) in secrets then None else Some(NotFound);
      if Name(key) in secrets { Remove(key); }
    }

    /** `items` is the API server's answer to the label selector, in whatever order it comes. */
    method List(prefix: string, items: seq<string>, fault: bool) returns (r: Result<seq<string>, StorageError>)
      requires Valid()
      requires forall name :: name in items <==> name in secrets
      ensures fault ==> r == Err(Unavailable)
      ensures !fault ==> r.Ok?
      ensures r.Ok? ==> forall k :: k in r.value <==> Listed(history, prefix, k)
      ensures r.Ok? && Distinct(items) ==> Distinct(r.value)
      ensures r.Ok? ==> forall k :: k in r.value ==> Name(k) == KEY_PREFIX + k
      ensures r.Ok? ==> forall rest :: Latest(history, prefix + rest).Some? ==> Clean(prefix + rest) in r.value
    {
      if fault { return Err(Unavailable); }
      var keys := Matching(Name(prefix), items);
      MatchingMeans(secrets, history, prefix, keys);
      return Ok(keys);
    }

    /** Reports the creation time as the modification time. */
    method Stat(key: string, fault: bool) returns (r: Result<KeyInfo, StorageError>)
      requires Valid()
      ensures fault ==> r == Err(Unavailable)
      ensures !fault && Latest(history, key).None? ==> r == Err(NotFound)
      ensures !fault && Latest(history, key).Some? ==>
                && Created(history, key).Some?
                && r == Ok(KeyInfo(key, Created(history, key).value, |Latest(history, key).value|, false))
    {
      ReplayIsLatest(history, key);
      if fault { return Err(Unavailable); }
      if Name(key) !in secrets { return Err(NotFound); }
      var secret := secrets[Name(key)];
      return Ok(KeyInfo(key, secret.created, |secret.value|, false));
    }
  }
}
