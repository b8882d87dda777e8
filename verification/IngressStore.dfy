/** The controller's list of ingresses, kept as a slice but meant as a map on UIDs. */
module IngressStore {
  import opened Wrappers
  import opened Resources

  // ---------- The reference: events and the latest one for a UID ----------

  datatype Event = Added(ingress: Ingress) | Updated(ingress: Ingress) | Deleted(ingress: Ingress)

  /** The ingress of the latest event for a UID, unless that event deleted it. */
  function Latest(events: seq<Event>, uid: string): Option<Ingress> {
    if events == [] then None else
    var last := events[|events| - 1];
    if last.ingress.uid != uid then Latest(events[..|events| - 1], uid)
    else if last.Deleted? then None else Some(last.ingress)
  }

  // ---------- The slice ----------

  ghost predicate DistinctUids(s: seq<Ingress>) {
    forall i, j :: 0 <= i < j < |s| ==> s[i].uid != s[j].uid
  }

  /** The slice holds exactly the latest ingress of each UID that was not deleted since. */
  ghost predicate Represents(s: seq<Ingress>, events: seq<Event>) {
    && DistinctUids(s)
    && (forall ing :: ing in s <==> Latest(events, ing.uid) == Some(ing))
  }

  /** What AddIngress leaves: the entry of that UID overwritten where it stands, or appended. */
  ghost predicate Upserted(s: seq<Ingress>, ing: Ingress, t: seq<Ingress>) {
    if exists i :: 0 <= i < |s| && s[i].uid == ing.uid then
      && |t| == |s|
      && (forall i :: 0 <= i < |s| ==> t[i] == if s[i].uid == ing.uid then ing else s[i])
    else
      t == s + [ing]
  }

  /** What PluckIngress leaves: the first entry of that UID replaced by the last one, and the slice
      cut by one. */
  ghost predicate Plucked(s: seq<Ingress>, uid: string, t: seq<Ingress>) {
    if exists i :: 0 <= i < |s| && s[i].uid == uid then
      exists i ::
        && 0 <= i < |s| && s[i].uid == uid && (forall j :: 0 <= j < i ==> s[j].uid != uid)
        && t == s[i := s[|s| - 1]][..|s| - 1]
    else
      t == s
  }

  lemma LatestSnoc(events: seq<Event>, e: Event, uid: string)
    ensures Latest(events + [e], uid) ==
            if e.ingress.uid != uid then Latest(events, uid) else if e.Deleted? then None else Some(e.ingress)
  {
    assert (events + [e])[..|events|] == events;
  }

  lemma UpsertRepresents(s: seq<Ingress>, events: seq<Event>, e: Event, t: seq<Ingress>)
    requires Represents(s, events) && !e.Deleted? && Upserted(s, e.ingress, t)
    ensures Represents(t, events + [e])
  {
    forall ing ensures ing in t <==> Latest(events + [e], ing.uid) == Some(ing) {
      LatestSnoc(events, e, ing.uid);
      assert ing in s <==> Latest(events, ing.uid) == Some(ing);
      if exists i :: 0 <= i < |s| && s[i].uid == e.ingress.uid {
        var at :| 0 <= at < |s| && s[at].uid == e.ingress.uid;
        assert t[at] == e.ingress;
        if ing in s && ing.uid != e.ingress.uid {
          var i :| 0 <= i < |s| && s[i] == ing;
          assert t[i] == ing;
        }
      }
    }
  }

  /** Overwriting an entry with the last one and cutting the slice removes exactly that entry. */
  lemma SwapRemove(s: seq<Ingress>, at: nat, t: seq<Ingress>)
    requires DistinctUids(s) && at < |s| && t == s[at := s[|s| - 1]][..|s| - 1]
    ensures DistinctUids(t)
    ensures forall ing :: ing in t <==> ing in s && ing.uid != s[at].uid
  {
    assert forall i :: 0 <= i < |t| ==> t[i] == if i == at then s[|s| - 1] else s[i];
    forall ing | ing in s && ing.uid != s[at].uid ensures ing in t {
      var i :| 0 <= i < |s| && s[i] == ing;
      assert if i < |s| - 1 then t[i] == ing else t[at] == ing;
    }
  }

  lemma PluckRepresents(s: seq<Ingress>, events: seq<Event>, e: Event, t: seq<Ingress>)
    requires Represents(s, events) && e.Deleted? && Plucked(s, e.ingress.uid, t)
    ensures Represents(t, events + [e])
  {
    var uid := e.ingress.uid;
    if exists i :: 0 <= i < |s| && s[i].uid == uid {
      var at :| 0 <= at < |s| && s[at].uid == uid && t == s[at := s[|s| - 1]][..|s| - 1];
      SwapRemove(s, at, t);
    }
    forall ing ensures ing in t <==> Latest(events + [e], ing.uid) == Some(ing) {
      LatestSnoc(events, e, ing.uid);
      assert ing in s <==> Latest(events, ing.uid) == Some(ing);
    }
  }

  class Store {
    var ingresses: seq<Ingress>

    /** The events handled so far. */
    ghost var events: seq<Event>

    ghost predicate Valid()
      reads this
    {
      Represents(ingresses, events)
    }

    constructor ()
      ensures Valid() && ingresses == [] && events == []
    {
      ingresses, events := [], [];
    }

    method AddIngress(ing: Ingress)
      modifies this`ingresses
      ensures Upserted(old(ingresses), ing, ingresses)
    {
      var isUniq := true;
      ghost var s := ingresses;
      for i := 0 to |ingresses|
        invariant |ingresses| == |s|
        invariant isUniq <==> forall j :: 0 <= j < i ==> s[j].uid != ing.uid
        invariant forall j :: 0 <= j < i ==> ingresses[j] == if s[j].uid == ing.uid then ing else s[j]
        invariant forall j :: i <= j < |s| ==> ingresses[j] == s[j]
      {
        if ingresses[i].uid == ing.uid {
          isUniq := false;
          ingresses := ingresses[i := ing];
        }
      }
      if isUniq {
        assert ingresses == s;
        ingresses := ingresses + [ing];
      }
    }

    method PluckIngress(ing: Ingress)
      modifies this`ingresses
      ensures Plucked(old(ingresses), ing.uid, ingresses)
    {
      var id, index, hasMatch := ing.uid, 0, false;
      for i := 0 to |ingresses|
        invariant ingresses == old(ingresses)
        invariant !hasMatch && forall j :: 0 <= j < i ==> ingresses[j].uid != id
      {
        if ingresses[i].uid == id {
          index, hasMatch := i, true;
          break;
        }
      }
      if hasMatch {
        var last := |ingresses| - 1;
        var removed := ingresses[index];
        ingresses := ingresses[index := ingresses[last]][last := removed];
        ingresses := ingresses[..last];
        assert ingresses == old(ingresses)[index := old(ingresses)[last]][..last];
      }
    }

    /** The three ingress actions: whatever the history, the slice holds exactly the latest ingress
        of each UID, once. */
    method Handle(e: Event)
      requires Valid()
      modifies this
      ensures Valid() && events == old(events) + [e]
    {
      ghost var s := ingresses;
      match e {
        case Added(ing) => AddIngress(ing); UpsertRepresents(s, events, e, ingresses);
        case Updated(ing) => AddIngress(ing); UpsertRepresents(s, events, e, ingresses);
        case Deleted(ing) => PluckIngress(ing); PluckRepresents(s, events, e, ingresses);
      }
      events := events + [e];
    }

    method HasManagedTLS() returns (r: bool)
      requires Valid()
      ensures r <==> exists uid :: Latest(events, uid).Some? && Latest(events, uid).value.tlsEntries > 0
    {
      for i := 0 to |ingresses|
        invariant forall j :: 0 <= j < i ==> ingresses[j].tlsEntries == 0
      {
        if ingresses[i].tlsEntries > 0 {
          assert ingresses[i] in ingresses;
          assert Latest(events, ingresses[i].uid) == Some(ingresses[i]);
          return true;
        }
      }
      forall uid | Latest(events, uid).Some? ensures Latest(events, uid).value.tlsEntries == 0 {
        LatestUid(events, uid);
        assert Latest(events, uid).value in ingresses;
      }
      return false;
    }
  }

  lemma {:induction false} LatestUid(events: seq<Event>, uid: string)
    ensures Latest(events, uid).Some? ==> Latest(events, uid).value.uid == uid
  {
    if events != [] { LatestUid(events[..|events| - 1], uid); }
  }
}
