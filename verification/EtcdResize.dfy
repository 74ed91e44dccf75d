/**
 Growing the volumes of the in-cluster etcd. The claims are updated, a copy of the StatefulSet with
 the new size is saved, the StatefulSet is deleted without its pods and created again. The
 procedure may be cut at any API call and starts over.
 */
module EtcdResize {
  import opened Common

  /** `templates` are the storage requests of the volume claim templates. */
  datatype StatefulSet = StatefulSet(replicas: nat, templates: seq<Option<int>>, body: string, terminating: bool)

  /** `claims` maps the ordinal of each existing claim to the size it requests. */
  datatype World = World(sts: Option<StatefulSet>, saved: Option<StatefulSet>, claims: map<nat, int>)

  datatype Write =
    | UpdateClaim(i: nat, size: int)
    | DeleteSaved
    | Save(sts: StatefulSet)
    | DeleteSts
    | CreateSts(sts: StatefulSet)

  /** Deleting with orphaned dependents leaves the object terminating until its finalizer has run. */
  function Apply(w: World, wr: Write): World
  {
    match wr
    case UpdateClaim(i, size) => w.(claims := w.claims[i := size])
    case DeleteSaved => w.(saved := None)
    case Save(sts) => w.(saved := Some(sts))
    case DeleteSts => if w.sts.Some? then w.(sts := Some(w.sts.value.(terminating := true))) else w
    case CreateSts(sts) => w.(sts := Some(sts))
  }

  /** Which API writes of a run succeed; a process that dies at write n sees none from n on. */
  type Lands = nat -> bool

  datatype Session = Session(w: World, at: nat, live: bool)

  function Call(s: Session, wr: Write, lands: Lands): Session
  {
    Session(if lands(s.at) then Apply(s.w, wr) else s.w, s.at + 1, lands(s.at))
  }

  function Halt(s: Session): Session { s.(live := false) }

  /** The first template decides; no template or no request counts as zero. */
  function SizeOf(sts: StatefulSet): int
  {
    if sts.templates != [] && sts.templates[0].Some? then sts.templates[0].value else 0
  }

  /** A StatefulSet to create: every template gets the size. */
  function Copy(sts: StatefulSet, size: int): StatefulSet
  {
    sts.(templates := seq(|sts.templates|, i => Some(size)), terminating := false)
  }

  /** The copy to save: the first template gets the size. */
  function WithFirst(sts: StatefulSet, size: int): StatefulSet
  {
    if sts.templates == [] then sts else sts.(templates := sts.templates[0 := Some(size)])
  }

  function UpdateClaims(s: Session, n: nat, size: int, lands: Lands): Session
  {
    if n == 0 then s
    else
      var t := UpdateClaims(s, n - 1, size, lands);
      if !t.live then t
      else if n - 1 !in t.w.claims then Halt(t)
      else Call(t, UpdateClaim(n - 1, size), lands)
  }

  /** Save, delete, wait, create; `gone` says whether the deletion finishes while the run waits. */
  function Recreate(s: Session, next: StatefulSet, size: int, gone: bool, lands: Lands): Session
  {
    var a := Call(s, DeleteSaved, lands);
    if !a.live then a else
      var b := Call(a, Save(next), lands);
      if !b.live then b else
        var c := Call(b, DeleteSts, lands);
        if !c.live then c
        else if !gone then Halt(c)
        else Call(c.(w := c.w.(sts := None)), CreateSts(Copy(next, size)), lands)
  }

  function Resize(s: Session, cur: StatefulSet, size: int, gone: bool, lands: Lands): Session
  {
    if SizeOf(cur) == size then s
    else
      var t := UpdateClaims(s, cur.replicas, size, lands);
      if !t.live then t else Recreate(t, WithFirst(cur, size), size, gone, lands)
  }

  /** One run; a size that does not parse is an error. */
  function Reconciled(w: World, size: Option<int>, gone: bool, lands: Lands): Session
  {
    var s := Session(w, 0, true);
    if size == None then Halt(s)
    else if w.sts.Some? then Resize(s, w.sts.value, size.value, gone, lands)
    else if w.saved == None then s
    else
      var cur := w.saved.value;
      var t := Call(s, CreateSts(Copy(cur, SizeOf(cur))), lands);
      if !t.live then t else Resize(t, cur, size.value, gone, lands)
  }

  class Resizer {
    var world: World
    var at: nat
    const lands: Lands

    ghost predicate Now(s: Session)
      reads this
    {
      world == s.w && at == s.at
    }

    method Write(wr: Write) returns (ok: bool)
      modifies this
      ensures Now(Call(Session(old(world), old(at), true), wr, lands))
      ensures ok == lands(old(at))
    {
      ok := lands(at);
      at := at + 1;
      if ok {
        world := Apply(world, wr);
      }
    }

    method CreateNewStatefulSet(template: StatefulSet, size: int) returns (ok: bool)
      modifies this
      ensures Now(Call(Session(old(world), old(at), true), CreateSts(Copy(template, size)), lands))
      ensures ok == lands(old(at))
    {
      var templates := template.templates;
      for i := 0 to |templates|
        invariant |templates| == |template.templates|
        invariant forall j :: 0 <= j < i ==> templates[j] == Some(size)
      {
        templates := templates[i := Some(size)];
      }
      assert templates == Copy(template, size).templates;
      ok := Write(CreateSts(template.(templates := templates, terminating := false)));
    }

    method UpdateAllClaims(replicas: nat, size: int) returns (ok: bool)
      modifies this
      ensures var s := UpdateClaims(Session(old(world), old(at), true), replicas, size, lands); Now(s) && ok == s.live
    {
      ghost var s := Session(world, at, true);
      for i := 0 to replicas
        invariant Now(UpdateClaims(s, i, size, lands)) && UpdateClaims(s, i, size, lands).live
      {
        if i !in world.claims {
          UpdateClaimsDead(s, i + 1, replicas, size, lands);
          return false;
        }
        ok := Write(UpdateClaim(i, size));
        if !ok {
          UpdateClaimsDead(s, i + 1, replicas, size, lands);
          return false;
        }
      }
      return true;
    }

    method ReconcilePvcs(size: Option<int>, gone: bool) returns (ok: bool)
      requires at == 0
      modifies this
      ensures var s := Reconciled(old(world), size, gone, lands); Now(s) && ok == s.live
    {
      hide Copy, UpdateClaims;
      if size == None {
        return false;
      }
      var current;
      if world.sts.Some? {
        current := world.sts.value;
      } else if world.saved == None {
        return true;
      } else {
        current := world.saved.value;
        ok := CreateNewStatefulSet(current, SizeOf(current));
        if !ok {
          return;
        }
      }
      if SizeOf(current) == size.value {
        return true;
      }
      ok := UpdateAllClaims(current.replicas, size.value);
      if !ok {
        return;
      }
      current := WithFirst(current, size.value);
      ok := Write(DeleteSaved);
      if !ok {
        return;
      }
      ok := Write(Save(current));
      if !ok {
        return;
      }
      ok := Write(DeleteSts);
      if !ok {
        return;
      }
      if !gone {
        return false;
      }
      world := world.(sts := None);
      ok := CreateNewStatefulSet(current, size.value);
    }
  }

  lemma {:induction false} UpdateClaimsDead(s: Session, m: nat, n: nat, size: int, lands: Lands)
    requires m <= n && !UpdateClaims(s, m, size, lands).live
    ensures UpdateClaims(s, n, size, lands) == UpdateClaims(s, m, size, lands)
    decreases n - m
  {
    if m < n { UpdateClaimsDead(s, m, n - 1, size, lands); }
  }

  // ---- crash safety ------------------------------------------------------------------------------------------

  /** Two versions of one StatefulSet: only sizes differ. */
  predicate Akin(a: StatefulSet, b: StatefulSet)
  {
    a.replicas == b.replicas && |a.templates| == |b.templates| && a.body == b.body
  }

  /** Every replica's claim requests the size. */
  predicate ClaimsAt(claims: map<nat, int>, n: nat, size: int)
  {
    forall i :: 0 <= i < n ==> i in claims && claims[i] == size
  }

  predicate ClaimsExist(w: World, n: nat) { forall i :: 0 <= i < n ==> i in w.claims }

  predicate Standing(w: World) { w.sts.Some? && !w.sts.value.terminating }

  /**
   `first` is the StatefulSet there was at the beginning. It exists or a copy is saved; it is on its
   way out only if a copy is saved; and a copy that may have to be used has the size its claims request.
   */
  predicate Inv(w: World, first: StatefulSet)
  {
    && (w.sts.Some? ==> Akin(w.sts.value, first))
    && (w.saved.Some? ==> Akin(w.saved.value, first))
    && (Standing(w) || w.saved.Some?)
    && (!Standing(w) && first.templates != [] ==>
          ClaimsAt(w.claims, first.replicas, SizeOf(w.saved.value)))
  }

  lemma {:induction false} UpdateClaimsEffect(s: Session, n: nat, size: int, lands: Lands)
    requires s.live
    ensures var t := UpdateClaims(s, n, size, lands);
            && t.w == s.w.(claims := t.w.claims) && t.w.claims.Keys == s.w.claims.Keys
            && (t.live ==> ClaimsAt(t.w.claims, n, size))
            && ((forall i :: lands(i)) ==> (t.live <==> ClaimsExist(s.w, n)))
            && ((forall i :: lands(i)) && t.live ==> t.at == s.at + n)
            && (forall i :: i in s.w.claims && i >= n ==> t.w.claims[i] == s.w.claims[i])
  {
    if n > 0 { UpdateClaimsEffect(s, n - 1, size, lands); }
  }

  lemma RecreateKeeps(s: Session, cur: StatefulSet, size: int, gone: bool, lands: Lands, first: StatefulSet)
    requires s.live && Inv(s.w, first) && Standing(s.w) && Akin(cur, first)
    requires ClaimsAt(s.w.claims, first.replicas, size)
    ensures Inv(Recreate(s, WithFirst(cur, size), size, gone, lands).w, first)
  {
    hide ClaimsAt;
  }

  lemma ResizeKeeps(s: Session, cur: StatefulSet, size: int, gone: bool, lands: Lands, first: StatefulSet)
    requires s.live && Inv(s.w, first) && Standing(s.w) && Akin(cur, first)
    ensures Inv(Resize(s, cur, size, gone, lands).w, first)
  {
    if SizeOf(cur) != size {
      UpdateClaimsEffect(s, cur.replicas, size, lands);
      var t := UpdateClaims(s, cur.replicas, size, lands);
      if t.live { RecreateKeeps(t, cur, size, gone, lands, first); }
    }
  }

  /** The run starts on a StatefulSet that is on its way out with another size, and finds all of its claims. */
  predicate Impatient(w: World, size: Option<int>)
  {
    && w.sts.Some? && w.sts.value.terminating && size.Some? && SizeOf(w.sts.value) != size.value
    && ClaimsExist(w, w.sts.value.replicas)
  }

  /** A terminating StatefulSet of the asked size, or with a claim missing, is left alone. */
  lemma TerminatingLeftAlone(w: World, size: int, gone: bool, lands: Lands, first: StatefulSet)
    requires Inv(w, first) && w.sts.Some? && w.sts.value.terminating && !Impatient(w, Some(size))
    ensures Inv(Reconciled(w, Some(size), gone, lands).w, first)
  {
    var cur := w.sts.value;
    if SizeOf(cur) != size {
      UpdateClaimsEffect(Session(w, 0, true), cur.replicas, size, lands);
      assert first.templates != [] ==> ClaimsExist(w, cur.replicas);
    }
  }

  /** A patient run keeps the invariant, wherever it is cut. */
  lemma RunKeeps(w: World, size: Option<int>, gone: bool, lands: Lands, first: StatefulSet)
    requires Inv(w, first) && !Impatient(w, size)
    ensures Inv(Reconciled(w, size, gone, lands).w, first)
  {
    hide Resize;
    if size.Some? {
      var s := Session(w, 0, true);
      if w.sts.Some? && w.sts.value.terminating {
        TerminatingLeftAlone(w, size.value, gone, lands, first);
      } else if w.sts.Some? {
        ResizeKeeps(s, w.sts.value, size.value, gone, lands, first);
      } else {
        var cur := w.saved.value;
        var t := Call(s, CreateSts(Copy(cur, SizeOf(cur))), lands);
        if t.live { ResizeKeeps(t, cur, size.value, gone, lands, first); }
      }
    }
  }

  datatype Event = Reconcile(size: Option<int>, gone: bool, lands: Lands) | StsGone

  ghost function Next(w: World, e: Event): World
  {
    match e
    case Reconcile(size, gone, lands) => Reconciled(w, size, gone, lands).w
    case StsGone => if w.sts.Some? && w.sts.value.terminating then w.(sts := None) else w
  }

  ghost function Run(w: World, events: seq<Event>): World
  {
    if events == [] then w else Next(Run(w, events[..|events| - 1]), events[|events| - 1])
  }

  /** No run starts on a StatefulSet of another size whose deletion is still under way. */
  ghost predicate Patient(w: World, events: seq<Event>)
  {
    events == [] ||
    var before, e := Run(w, events[..|events| - 1]), events[|events| - 1];
    Patient(w, events[..|events| - 1]) && (e.Reconcile? ==> !Impatient(before, e.size))
  }

  /** Any sizes, any cuts: the StatefulSet or a copy with the size of its claims is always there. */
  lemma {:induction false} NeverLost(w: World, events: seq<Event>)
    requires Standing(w) && w.saved == None && Patient(w, events)
    ensures Inv(Run(w, events), w.sts.value)
  {
    hide Reconciled;
    if events != [] {
      NeverLost(w, events[..|events| - 1]);
      var before, e := Run(w, events[..|events| - 1]), events[|events| - 1];
      if e.Reconcile? { RunKeeps(before, e.size, e.gone, e.lands, w.sts.value); }
    }
  }

  /**
   Patience is needed: every impatient run that dies after dropping the saved copy loses both.
   */
  lemma ImpatientRunLosesBoth(w: World, size: int)
    requires Impatient(w, Some(size))
    ensures var n := w.sts.value.replicas;
            var r := Run(w, [Reconcile(Some(size), true, i => i <= n), StsGone]);
            r.sts == None && r.saved == None
  {
    var n := w.sts.value.replicas;
    var lands: Lands := i => i <= n;
    var s := Session(w, 0, true);
    ClaimsLand(s, n, size, lands);
    UpdateClaimsEffect(s, n, size, lands);
    var es := [Reconcile(Some(size), true, lands), StsGone];
    assert es[..1] == [es[0]] && es[..1][..0] == [];
    assert Run(w, es[..1]) == Next(w, es[0]);
  }

  /** A run for a size, followed by the end of any deletion, leaves neither StatefulSet nor copy. */
  ghost predicate LosesBoth(w: World, size: Option<int>, gone: bool, lands: Lands)
  {
    var r := Next(Next(w, Reconcile(size, gone, lands)), StsGone);
    r.sts == None && r.saved == None
  }

  /** The exact condition: some cut of a run loses both if and only if the run is impatient. */
  lemma LossIffImpatient(w: World, size: Option<int>, first: StatefulSet)
    requires Inv(w, first)
    ensures (exists gone, lands :: LosesBoth(w, size, gone, lands)) <==> Impatient(w, size)
  {
    hide Reconciled;
    if Impatient(w, size) {
      ImpatientRunLosesBoth(w, size.value);
      var n := w.sts.value.replicas;
      var lands: Lands := i => i <= n;
      var es := [Reconcile(size, true, lands), StsGone];
      assert es[..1] == [es[0]] && es[..1][..0] == [];
      assert Run(w, es[..1]) == Next(w, es[0]);
      assert LosesBoth(w, size, true, lands);
    } else {
      forall gone, lands: Lands
        ensures !LosesBoth(w, size, gone, lands)
      {
        RunKeeps(w, size, gone, lands, first);
      }
    }
  }

  /** Such a state is left by any run that is cut while it waits for the deletion. */
  lemma LossIsReachable(w: World, size: int)
    requires Standing(w) && SizeOf(w.sts.value) != size && ClaimsExist(w, w.sts.value.replicas)
    ensures var n := w.sts.value.replicas;
            var r := Run(w, [Reconcile(Some(size), false, i => true), Reconcile(Some(size), true, i => i <= n), StsGone]);
            r.sts == None && r.saved == None
  {
    var n := w.sts.value.replicas;
    var es := [Reconcile(Some(size), false, i => true), Reconcile(Some(size), true, i => i <= n), StsGone];
    var v := Next(w, es[0]);
    UpdateClaimsEffect(Session(w, 0, true), n, size, i => true);
    assert v.sts == Some(w.sts.value.(terminating := true));
    assert Impatient(v, Some(size));
    ImpatientRunLosesBoth(v, size);
    hide Reconciled;
    assert es[..2][..1] == [es[0]] && es[..1][..0] == [];
    assert Run(w, es[..1]) == v;
    var fs := [Reconcile(Some(size), true, i => i <= n), StsGone];
    assert fs[..1] == [es[1]] && fs[..1][..0] == [];
    assert Run(v, fs[..1]) == Next(v, es[1]);
    assert Run(w, es[..2]) == Next(v, es[1]);
  }

  lemma {:induction false} ClaimsLand(s: Session, n: nat, size: int, lands: Lands)
    requires s.live && ClaimsExist(s.w, n) && forall i :: s.at <= i < s.at + n ==> lands(i)
    ensures var t := UpdateClaims(s, n, size, lands); t.live && t.at == s.at + n && t.w.claims.Keys == s.w.claims.Keys
  {
    if n > 0 { ClaimsLand(s, n - 1, size, lands); }
  }

  // ---- one size to the end -----------------------------------------------------------------------------------

  /** The StatefulSet a run works from: the existing one, or else the saved one. */
  function Basis(w: World): (cur: StatefulSet)
    requires w.sts.Some? || w.saved.Some?
  {
    if w.sts.Some? then w.sts.value else w.saved.value
  }

  /**
   An uncut run ends with the StatefulSet at the size exactly when it was at that size already or
   it has a volume claim template and no claim is missing; a missing claim stops it before the
   saved copy and the StatefulSet are touched.
   */
  lemma UncutRunEndsAtSizeIff(w: World, size: int, lands: Lands)
    requires (w.sts.Some? || w.saved.Some?) && forall i :: lands(i)
    ensures var r := Reconciled(w, Some(size), true, lands);
            var cur := Basis(w);
            && r.w.sts.Some? && Akin(r.w.sts.value, cur)
            && ((w.sts.Some? ==> Standing(w)) ==> Standing(r.w))
            && (SizeOf(r.w.sts.value) == size <==>
                  SizeOf(cur) == size || (ClaimsExist(w, cur.replicas) && (cur.templates != [] || size == 0)))
            && (SizeOf(cur) == size ==> r.live)
            && (SizeOf(cur) != size && !ClaimsExist(w, cur.replicas) ==>
                  !r.live && r.w.saved == w.saved && (w.sts.Some? ==> r.w.sts == w.sts))
            && (SizeOf(cur) != size && ClaimsExist(w, cur.replicas) ==>
                  r.live && Standing(r.w) && ClaimsAt(r.w.claims, cur.replicas, size))
  {
    var cur := Basis(w);
    var s := Session(w, 0, true);
    var t := if w.sts.Some? then s else Call(s, CreateSts(Copy(cur, SizeOf(cur))), lands);
    UpdateClaimsEffect(t, cur.replicas, size, lands);
  }

  predicate AllAkin(w: World, first: StatefulSet)
  {
    (w.sts.Some? ==> Akin(w.sts.value, first)) && (w.saved.Some? ==> Akin(w.saved.value, first))
  }

  /**
   While every run asks for one size: a StatefulSet at that size is not on its way out and has its
   claims there, and so has every saved copy.
   */
  predicate AtSizeMeansClaims(w: World, first: StatefulSet, size: int)
  {
    && AllAkin(w, first)
    && (w.sts.Some? && SizeOf(w.sts.value) == size ==> Standing(w) && ClaimsAt(w.claims, first.replicas, size))
    && (w.saved.Some? && first.templates != [] ==>
          SizeOf(w.saved.value) == size && ClaimsAt(w.claims, first.replicas, size))
  }

  /** Claims that are at the size already stay there. */
  lemma {:induction false} ClaimsStay(s: Session, n: nat, size: int, lands: Lands, m: nat)
    requires s.live && ClaimsAt(s.w.claims, m, size)
    ensures ClaimsAt(UpdateClaims(s, n, size, lands).w.claims, m, size)
  {
    if n > 0 { ClaimsStay(s, n - 1, size, lands, m); }
  }

  lemma RecreateMeansClaims(s: Session, cur: StatefulSet, size: int, gone: bool, lands: Lands, first: StatefulSet)
    requires AtSizeMeansClaims(s.w, first, size) && s.w.sts.Some? && SizeOf(s.w.sts.value) != size
    requires Akin(cur, first) && SizeOf(first) != size && ClaimsAt(s.w.claims, first.replicas, size)
    ensures var r := Recreate(s, WithFirst(cur, size), size, gone, lands).w;
            AtSizeMeansClaims(r, first, size) && r.claims == s.w.claims
  {
    hide ClaimsAt;
  }

  lemma ResizeMeansClaims(s: Session, cur: StatefulSet, size: int, gone: bool, lands: Lands, first: StatefulSet)
    requires s.live && AtSizeMeansClaims(s.w, first, size) && s.w.sts.Some? && Akin(cur, first) && SizeOf(first) != size
    requires SizeOf(s.w.sts.value) == SizeOf(cur)
    ensures var r := Resize(s, cur, size, gone, lands).w;
            AtSizeMeansClaims(r, first, size) && r.claims.Keys == s.w.claims.Keys
  {
    hide ClaimsAt, Recreate;
    if SizeOf(cur) != size {
      UpdateClaimsEffect(s, cur.replicas, size, lands);
      var t := UpdateClaims(s, cur.replicas, size, lands);
      if ClaimsAt(s.w.claims, first.replicas, size) { ClaimsStay(s, cur.replicas, size, lands, first.replicas); }
      if t.live { RecreateMeansClaims(t, cur, size, gone, lands, first); }
    }
  }

  lemma RunMeansClaims(w: World, size: Option<int>, gone: bool, lands: Lands, first: StatefulSet, goal: int)
    requires AtSizeMeansClaims(w, first, goal) && SizeOf(first) != goal && (size.Some? ==> size.value == goal)
    ensures var r := Reconciled(w, size, gone, lands).w;
            AtSizeMeansClaims(r, first, goal) && r.claims.Keys == w.claims.Keys
  {
    hide ClaimsAt, Resize;
    if size.Some? && (w.sts.Some? || w.saved.Some?) {
      var cur := Basis(w);
      var s := Session(w, 0, true);
      var t := if w.sts.Some? then s else Call(s, CreateSts(Copy(cur, SizeOf(cur))), lands);
      if t.live { ResizeMeansClaims(t, cur, goal, gone, lands, first); }
    }
  }

  ghost predicate OneSize(events: seq<Event>, size: int)
  {
    forall i :: 0 <= i < |events| && events[i].Reconcile? && events[i].size.Some? ==> events[i].size.value == size
  }

  /** In every run for one size, patient or not, a StatefulSet of that size implies that every replica's claim requests it. */
  lemma {:induction false} NewSizeMeansClaims(w: World, events: seq<Event>, size: int)
    requires w.sts.Some? && w.saved == None && OneSize(events, size) && SizeOf(w.sts.value) != size
    ensures AtSizeMeansClaims(Run(w, events), w.sts.value, size) && Run(w, events).claims.Keys == w.claims.Keys
  {
    hide Reconciled, ClaimsAt;
    if events != [] {
      var init := events[..|events| - 1];
      NewSizeMeansClaims(w, init, size);
      var before, e := Run(w, init), events[|events| - 1];
      if e.Reconcile? { RunMeansClaims(before, e.size, e.gone, e.lands, w.sts.value, size); }
    }
  }

  /**
   After any cut runs for one size, patient or not, one uncut run ends with StatefulSet and claims
   at the new size, exactly when the StatefulSet or a copy is still there to start from.
   */
  lemma CutRunsStillArrive(w: World, events: seq<Event>, size: int, lands: Lands)
    requires w.sts.Some? && w.saved == None && OneSize(events, size) && forall i :: lands(i)
    requires w.sts.value.templates != [] && SizeOf(w.sts.value) != size && ClaimsExist(w, w.sts.value.replicas)
    ensures var v := Run(w, events);
            var r := Reconciled(v, Some(size), true, lands);
            v.sts.Some? || v.saved.Some? <==>
            r.live && Standing(r.w) && SizeOf(r.w.sts.value) == size && ClaimsAt(r.w.claims, w.sts.value.replicas, size)
  {
    var v := Run(w, events);
    NewSizeMeansClaims(w, events, size);
    if v.sts.Some? || v.saved.Some? {
      hide Run, Reconciled;
      UncutRunEndsAtSizeIff(v, size, lands);
      RunMeansClaims(v, Some(size), true, lands, w.sts.value, size);
      assert ClaimsExist(v, w.sts.value.replicas);
    }
  }

  // ---- the outcome in full ------------------------------------------------------------------------------------

  /** An uncut run for another size than the first template's: everything it leaves behind. */
  lemma UncutRunOutcome(w: World, size: int, lands: Lands)
    requires w.sts.Some? && w.sts.value.templates != [] && w.sts.value.templates[0] != Some(size)
    requires w.sts.value.templates[0] == None ==> size != 0
    requires (forall i :: 0 <= i < w.sts.value.replicas ==> i in w.claims) && forall i :: lands(i)
    ensures var old_, r := w.sts.value, Reconciled(w, Some(size), true, lands);
            && r.live && r.w.sts.Some? && r.w.saved.Some?
            && r.w.sts.value.replicas == old_.replicas && r.w.sts.value.body == old_.body && !r.w.sts.value.terminating
            && |r.w.sts.value.templates| == |old_.templates|
            && (forall i :: 0 <= i < |old_.templates| ==> r.w.sts.value.templates[i] == Some(size))
            && r.w.saved.value == old_.(templates := [Some(size)] + old_.templates[1..])
            && r.w.claims.Keys == w.claims.Keys
            && (forall i :: i in w.claims ==> r.w.claims[i] == if i < old_.replicas then size else w.claims[i])
  {
    var s := Session(w, 0, true);
    UpdateClaimsEffect(s, w.sts.value.replicas, size, lands);
    hide UpdateClaims;
  }

  /** Nothing is written for the size that is there, and no request counts as size zero. */
  lemma RightSizeIsQuiet(w: World, size: int, gone: bool, lands: Lands)
    requires w.sts.Some?
    requires if w.sts.value.templates != [] && w.sts.value.templates[0].Some? then w.sts.value.templates[0].value == size
             else size == 0
    ensures Reconciled(w, Some(size), gone, lands) == Session(w, 0, true)
  {
  }

  /** A saved copy is brought back with the size of its first template in all of them. */
  lemma CopyComesBack(w: World, size: int, gone: bool, lands: Lands)
    requires w.sts == None && w.saved.Some? && w.saved.value.templates != [] && w.saved.value.templates[0] == Some(size)
    requires lands(0)
    ensures var r := Reconciled(w, Some(size), gone, lands);
            && r.live && r.at == 1 && r.w.saved == w.saved && r.w.claims == w.claims && r.w.sts.Some?
            && r.w.sts.value.replicas == w.saved.value.replicas && r.w.sts.value.body == w.saved.value.body
            && !r.w.sts.value.terminating && |r.w.sts.value.templates| == |w.saved.value.templates|
            && forall i :: 0 <= i < |r.w.sts.value.templates| ==> r.w.sts.value.templates[i] == Some(size)
  {
  }

  /** All writes so far have landed, except perhaps for the last, and then the run has stopped. */
  predicate StoppedAtFailure(s: Session, lands: Lands)
  {
    && (forall k :: 0 <= k < s.at - 1 ==> lands(k))
    && (s.at > 0 && !lands(s.at - 1) ==> !s.live)
  }

  lemma {:induction false} ClaimsStop(s: Session, n: nat, size: int, lands: Lands)
    requires s.live && StoppedAtFailure(s, lands)
    ensures StoppedAtFailure(UpdateClaims(s, n, size, lands), lands)
  {
    if n > 0 { ClaimsStop(s, n - 1, size, lands); }
  }

  lemma ResizeStops(s: Session, cur: StatefulSet, size: int, gone: bool, lands: Lands)
    requires s.live && StoppedAtFailure(s, lands)
    ensures StoppedAtFailure(Resize(s, cur, size, gone, lands), lands)
  {
    hide UpdateClaims, Apply, SizeOf, WithFirst, Copy;
    ClaimsStop(s, cur.replicas, size, lands);
  }

  /** A run makes no write after one that failed. */
  lemma RunStopsAtFailure(w: World, size: Option<int>, gone: bool, lands: Lands)
    ensures StoppedAtFailure(Reconciled(w, size, gone, lands), lands)
  {
    hide Resize, Apply, SizeOf, Copy;
    var s := Session(w, 0, true);
    if size.Some? && w.sts.Some? {
      ResizeStops(s, w.sts.value, size.value, gone, lands);
    } else if size.Some? && w.saved.Some? {
      var t := Call(s, CreateSts(Copy(w.saved.value, SizeOf(w.saved.value))), lands);
      if t.live { ResizeStops(t, w.saved.value, size.value, gone, lands); }
    }
  }
}
