/** The claim set a policy matches against: the scalar leaves of a token's payload under dotted names. */
module Identity {
  import opened Wrappers
  import opened Text
  import opened Json

  const NAMESPACE := "https://sts.amazonaws.com/"
  const AWS_PREFIX := "aws"
  const RESERVED: set<string> := {"iss", "sub", "aud", "exp", "nbf", "iat"}

  type Claims = map<string, string>

  datatype Identity = Identity(issuer: string, subject: string, audience: seq<string>, expiry: int, claims: Claims)

  // ----- the leaves of a tree -----

  /** Where an object sits: the payload itself, or below a dotted name. */
  datatype Place = Top | Under(prefix: string)

  /** The dotted name of an object's member; None when the member is not part of the claim set. */
  function MemberName(place: Place, key: string): Option<string> {
    match place
    case Top => if key in RESERVED then None else Some(if key == NAMESPACE then AWS_PREFIX else key)
    case Under(prefix) => Some(prefix + "." + key)
  }

  function ScalarText(v: Json): Option<string> {
    match v
    case Str(s) => Some(s)
    case Num(text) => Some(text)
    case Bool(b) => Some(if b then "true" else "false")
    case _ => None
  }

  ghost predicate IsLeaf(prefix: string, v: Json, name: string, text: string)
    decreases v
  {
    match v
    case Obj(members) => IsMemberLeaf(Under(prefix), members, name, text)
    case _ => name == prefix && ScalarText(v) == Some(text)
  }

  ghost predicate IsMemberLeaf(place: Place, members: seq<Member>, name: string, text: string)
    decreases members
  {
    exists i :: 0 <= i < |members| && IsLeafOfMember(place, members[i], name, text)
  }

  ghost predicate IsLeafOfMember(place: Place, member: Member, name: string, text: string)
    decreases member
  {
    MemberName(place, member.key).Some? && IsLeaf(MemberName(place, member.key).value, member.value, name, text)
  }

  // ----- one run of the walk, in an explicit order -----

  /** An object's members are visited in any order: which one, and the order inside it. */
  datatype Visit = Visit(index: nat, below: seq<Visit>)

  ghost predicate ValidOrder(v: Json, order: seq<Visit>) {
    v.Obj? ==> ValidVisits(v.members, order) && VisitsAll(v.members, order)
  }

  ghost predicate ValidVisits(members: seq<Member>, order: seq<Visit>) {
    && (forall k :: 0 <= k < |order| ==>
          order[k].index < |members| && ValidOrder(members[order[k].index].value, order[k].below))
    && (forall k, l :: 0 <= k < l < |order| ==> order[k].index != order[l].index)
  }

  ghost predicate VisitsAll(members: seq<Member>, order: seq<Visit>) {
    forall i :: 0 <= i < |members| ==> IsVisited(order, i)
  }

  ghost predicate IsVisited(order: seq<Visit>, i: nat) {
    exists k :: 0 <= k < |order| && order[k].index == i
  }

  ghost function FlattenIn(prefix: string, v: Json, order: seq<Visit>, claims: Claims): Claims
    requires ValidOrder(v, order)
    decreases v
  {
    match v
    case Obj(members) => VisitIn(Under(prefix), members, order, claims)
    case _ => if ScalarText(v).Some? then claims[prefix := ScalarText(v).value] else claims
  }

  ghost function VisitIn(place: Place, members: seq<Member>, order: seq<Visit>, claims: Claims): Claims
    requires ValidVisits(members, order)
    decreases members, |order|
  {
    if order == [] then claims
    else
      var n := |order| - 1;
      VisitOne(place, members[order[n].index], order[n].below, VisitIn(place, members, order[..n], claims))
  }

  ghost function VisitOne(place: Place, member: Member, below: seq<Visit>, claims: Claims): Claims
    requires ValidOrder(member.value, below)
    decreases member
  {
    match MemberName(place, member.key)
    case None => claims
    case Some(name) => FlattenIn(name, member.value, below, claims)
  }

  // ----- what every order yields -----

  /** `after` is `before` overwritten by the leaves: each leaf's name is present,
      and a name with leaves holds the text of one of them. */
  ghost predicate Overlays(leaf: iset<(string, string)>, before: Claims, after: Claims) {
    && (forall n :: n in before ==> n in after)
    && (forall n, t :: (n, t) in leaf ==> n in after)
    && (forall n :: n in after ==>
          || (n, after[n]) in leaf
          || (n in before && after[n] == before[n] && forall t :: (n, t) !in leaf))
  }

  ghost function Leaves(prefix: string, v: Json): iset<(string, string)> {
    iset n: string, t: string | IsLeaf(prefix, v, n, t) :: (n, t)
  }

  ghost function MemberLeaves(place: Place, members: seq<Member>): iset<(string, string)> {
    iset n: string, t: string | IsMemberLeaf(place, members, n, t) :: (n, t)
  }

  ghost predicate IsVisitedLeaf(place: Place, members: seq<Member>, order: seq<Visit>, name: string, text: string)
    requires ValidVisits(members, order)
  {
    exists k :: 0 <= k < |order| && IsLeafOfMember(place, members[order[k].index], name, text)
  }

  ghost function VisitedLeaves(place: Place, members: seq<Member>, order: seq<Visit>): iset<(string, string)>
    requires ValidVisits(members, order)
  {
    iset n: string, t: string | IsVisitedLeaf(place, members, order, n, t) :: (n, t)
  }

  lemma OverlaysInTurn(f: iset<(string, string)>, g: iset<(string, string)>, c0: Claims, c1: Claims, c2: Claims)
    requires Overlays(f, c0, c1) && Overlays(g, c1, c2)
    ensures Overlays(f + g, c0, c2)
  {
  }

  lemma {:induction false} FlattenOverlays(prefix: string, v: Json, order: seq<Visit>, claims: Claims)
    requires ValidOrder(v, order)
    ensures Overlays(Leaves(prefix, v), claims, FlattenIn(prefix, v, order, claims))
    decreases v
  {
    match v
    case Obj(members) =>
      VisitOverlays(Under(prefix), members, order, claims);
      AllVisitedLeaves(Under(prefix), members, order);
      assert Leaves(prefix, v) == MemberLeaves(Under(prefix), members);
    case _ =>
  }

  lemma {:induction false} VisitOverlays(place: Place, members: seq<Member>, order: seq<Visit>, claims: Claims)
    requires ValidVisits(members, order)
    ensures Overlays(VisitedLeaves(place, members, order), claims, VisitIn(place, members, order, claims))
    decreases members, |order|
  {
    if order != [] {
      var n := |order| - 1;
      var visit := order[n];
      var member := members[visit.index];
      var before := VisitIn(place, members, order[..n], claims);
      VisitOverlays(place, members, order[..n], claims);
      if MemberName(place, member.key).Some? {
        FlattenOverlays(MemberName(place, member.key).value, member.value, visit.below, before);
      }
      OverlaysInTurn(VisitedLeaves(place, members, order[..n]), LeavesOf(place, member), claims, before,
                     VisitOne(place, member, visit.below, before));
      VisitedLeavesGrow(place, members, order);
    }
  }

  ghost function LeavesOf(place: Place, member: Member): iset<(string, string)> {
    match MemberName(place, member.key)
    case None => iset{}
    case Some(name) => Leaves(name, member.value)
  }

  lemma VisitedLeavesGrow(place: Place, members: seq<Member>, order: seq<Visit>)
    requires ValidVisits(members, order) && order != []
    ensures var n := |order| - 1;
            VisitedLeaves(place, members, order)
            == VisitedLeaves(place, members, order[..n]) + LeavesOf(place, members[order[n].index])
  {
  }

  lemma AllVisitedLeaves(place: Place, members: seq<Member>, order: seq<Visit>)
    requires ValidVisits(members, order) && VisitsAll(members, order)
    ensures VisitedLeaves(place, members, order) == MemberLeaves(place, members)
  {
    forall n, t ensures IsVisitedLeaf(place, members, order, n, t) <==> IsMemberLeaf(place, members, n, t) {
      if i :| 0 <= i < |members| && IsLeafOfMember(place, members[i], n, t) {
        assert IsVisited(order, i);
      }
    }
  }

  lemma VisitedAfter(order: seq<Visit>, visit: Visit, i: nat)
    ensures IsVisited(order + [visit], i) <==> IsVisited(order, i) || i == visit.index
  {
    var next := order + [visit];
    assert next[|order|] == visit;
    if k :| 0 <= k < |order| && order[k].index == i {
      assert next[k].index == i;
    }
  }

  lemma ExtendedIsValid(members: seq<Member>, order: seq<Visit>, visit: Visit)
    requires ValidVisits(members, order)
    requires visit.index < |members| && ValidOrder(members[visit.index].value, visit.below)
    requires !IsVisited(order, visit.index)
    ensures ValidVisits(members, order + [visit])
  {
    var next := order + [visit];
    forall k | 0 <= k < |next|
      ensures next[k].index < |members| && ValidOrder(members[next[k].index].value, next[k].below)
    {
      assert next[k] == if k < |order| then order[k] else visit;
    }
  }

  /** One more visit of a member not visited yet. */
  lemma ExtendVisits(place: Place, members: seq<Member>, order: seq<Visit>, visit: Visit, claims: Claims)
    requires ValidVisits(members, order)
    requires visit.index < |members| && ValidOrder(members[visit.index].value, visit.below)
    requires !IsVisited(order, visit.index)
    ensures ValidVisits(members, order + [visit])
    ensures forall i :: IsVisited(order + [visit], i) <==> IsVisited(order, i) || i == visit.index
    ensures VisitIn(place, members, order + [visit], claims)
         == VisitOne(place, members[visit.index], visit.below, VisitIn(place, members, order, claims))
  {
    ExtendedIsValid(members, order, visit);
    forall i ensures IsVisited(order + [visit], i) <==> IsVisited(order, i) || i == visit.index {
      VisitedAfter(order, visit, i);
    }
    assert (order + [visit])[..|order|] == order;
  }

  // ----- every leaf can be the one that is kept -----

  function DefaultOrder(v: Json): seq<Visit>
    decreases v
  {
    if v.Obj? then DefaultVisits(v.members, |v.members|, |v.members|) else []
  }

  /** The first `n` members in listed order, leaving out `skip`. */
  function DefaultVisits(members: seq<Member>, n: nat, skip: nat): seq<Visit>
    requires n <= |members|
    decreases members, n
  {
    if n == 0 then []
    else
      var rest := DefaultVisits(members, n - 1, skip);
      if n - 1 == skip then rest else rest + [Visit(n - 1, DefaultOrder(members[n - 1].value))]
  }

  lemma {:induction false} DefaultOrderIsValid(v: Json)
    ensures ValidOrder(v, DefaultOrder(v))
    decreases v
  {
    if v.Obj? {
      DefaultVisitsAreValid(v.members, |v.members|, |v.members|);
      forall i | 0 <= i < |v.members| ensures IsVisited(DefaultOrder(v), i) {
        DefaultVisitsVisit(v.members, |v.members|, |v.members|, i);
      }
    }
  }

  lemma {:induction false} DefaultVisitsAreValid(members: seq<Member>, n: nat, skip: nat)
    requires n <= |members|
    ensures ValidVisits(members, DefaultVisits(members, n, skip))
    decreases members, n
  {
    if n > 0 {
      DefaultVisitsAreValid(members, n - 1, skip);
      DefaultVisitsStayBelow(members, n - 1, skip);
      DefaultOrderIsValid(members[n - 1].value);
    }
  }

  lemma {:induction false} DefaultVisitsStayBelow(members: seq<Member>, n: nat, skip: nat)
    requires n <= |members|
    ensures forall k :: 0 <= k < |DefaultVisits(members, n, skip)| ==> DefaultVisits(members, n, skip)[k].index < n
    ensures forall k :: 0 <= k < |DefaultVisits(members, n, skip)| ==> DefaultVisits(members, n, skip)[k].index != skip
    decreases n
  {
    if n > 0 { DefaultVisitsStayBelow(members, n - 1, skip); }
  }

  lemma {:induction false} DefaultVisitsVisit(members: seq<Member>, n: nat, skip: nat, i: nat)
    requires n <= |members| && i < n && i != skip
    ensures IsVisited(DefaultVisits(members, n, skip), i)
    decreases n
  {
    var rest, all := DefaultVisits(members, n - 1, skip), DefaultVisits(members, n, skip);
    if i < n - 1 {
      DefaultVisitsVisit(members, n - 1, skip, i);
      var k :| 0 <= k < |rest| && rest[k].index == i;
      assert all[k].index == i;
    } else {
      assert all[|all| - 1].index == i;
    }
  }

  /** All members but `skip`, each visited once. */
  lemma DefaultVisitsAreComplete(members: seq<Member>, skip: nat)
    ensures var order := DefaultVisits(members, |members|, skip);
            && ValidVisits(members, order)
            && (forall k :: 0 <= k < |order| ==> order[k].index != skip)
            && (forall i :: 0 <= i < |members| && i != skip ==> IsVisited(order, i))
  {
    DefaultVisitsAreValid(members, |members|, skip);
    DefaultVisitsStayBelow(members, |members|, skip);
    forall i | 0 <= i < |members| && i != skip ensures IsVisited(DefaultVisits(members, |members|, skip), i) {
      DefaultVisitsVisit(members, |members|, skip, i);
    }
  }

  lemma {:induction false} LeafCanWin(prefix: string, v: Json, name: string, text: string, claims: Claims)
    returns (order: seq<Visit>)
    requires IsLeaf(prefix, v, name, text)
    ensures ValidOrder(v, order)
    ensures name in FlattenIn(prefix, v, order, claims) && FlattenIn(prefix, v, order, claims)[name] == text
    decreases v
  {
    match v
    case Obj(members) => order := MemberLeafCanWin(Under(prefix), members, name, text, claims);
    case _ => order := [];
  }

  /** Visit the leaf's member last, and inside it do the same. */
  lemma {:induction false} MemberLeafCanWin(place: Place, members: seq<Member>, name: string, text: string,
                                            claims: Claims)
    returns (order: seq<Visit>)
    requires IsMemberLeaf(place, members, name, text)
    ensures ValidVisits(members, order) && VisitsAll(members, order)
    ensures name in VisitIn(place, members, order, claims) && VisitIn(place, members, order, claims)[name] == text
    decreases members
  {
    var i :| 0 <= i < |members| && IsLeafOfMember(place, members[i], name, text);
    var others := DefaultVisits(members, |members|, i);
    DefaultVisitsAreComplete(members, i);
    var before := VisitIn(place, members, others, claims);
    var below := LeafCanWin(MemberName(place, members[i].key).value, members[i].value, name, text, before);
    ExtendVisits(place, members, others, Visit(i, below), claims);
    order := others + [Visit(i, below)];
  }

  // ----- the walk as the service runs it -----

  /** The Go map the walk writes into. */
  class ClaimMap {
    var entries: Claims

    constructor ()
      ensures entries == map[]
    {
      entries := map[];
    }
  }

  /** Some order of the members of the payload gives exactly these claims. */
  ghost predicate ParsesTo(members: seq<Member>, claims: Claims) {
    exists order ::
      && ValidVisits(members, order) && VisitsAll(members, order)
      && claims == VisitIn(Top, members, order, map[])
  }

  function Indices(n: nat): (r: set<nat>)
    ensures forall i :: i in r <==> 0 <= i < n
  {
    if n == 0 then {} else Indices(n - 1) + {n - 1}
  }

  method Flatten(prefix: string, v: Json, out: ClaimMap) returns (ghost order: seq<Visit>)
    modifies out
    ensures ValidOrder(v, order)
    ensures out.entries == FlattenIn(prefix, v, order, old(out.entries))
    decreases v
  {
    order := [];
    match v {
      case Obj(members) => order := FlattenMembers(Under(prefix), members, out);
      case Str(s) => out.entries := out.entries[prefix := s];
      case Num(text) => out.entries := out.entries[prefix := text];
      case Bool(b) => out.entries := out.entries[prefix := if b then "true" else "false"];
      case _ =>
    }
  }

  /** A range over a Go map: the next member is any that is left. */
  method FlattenMembers(place: Place, members: seq<Member>, out: ClaimMap) returns (ghost order: seq<Visit>)
    modifies out
    ensures ValidVisits(members, order) && VisitsAll(members, order)
    ensures out.entries == VisitIn(place, members, order, old(out.entries))
    decreases members
  {
    ghost var before := out.entries;
    order := [];
    var left := Indices(|members|);
    while left != {}
      invariant Left(members, order, left)
      invariant out.entries == VisitIn(place, members, order, before)
      decreases left
    {
      var i: nat :| i in left;
      ghost var below := VisitMember(place, members[i], out);
      LeaveOne(place, members, order, left, Visit(i, below), before);
      left, order := left - {i}, order + [Visit(i, below)];
    }
  }

  /** The members not visited yet. */
  ghost predicate Left(members: seq<Member>, order: seq<Visit>, left: set<nat>) {
    && ValidVisits(members, order)
    && (forall i :: i in left ==> i < |members|)
    && (forall i: nat :: i < |members| ==> (i in left <==> !IsVisited(order, i)))
  }

  lemma LeaveOne(place: Place, members: seq<Member>, order: seq<Visit>, left: set<nat>, visit: Visit, claims: Claims)
    requires Left(members, order, left)
    requires visit.index in left && ValidOrder(members[visit.index].value, visit.below)
    ensures Left(members, order + [visit], left - {visit.index})
    ensures VisitIn(place, members, order + [visit], claims)
         == VisitOne(place, members[visit.index], visit.below, VisitIn(place, members, order, claims))
  {
    ExtendVisits(place, members, order, visit, claims);
  }

  method VisitMember(place: Place, member: Member, out: ClaimMap) returns (ghost below: seq<Visit>)
    modifies out
    ensures ValidOrder(member.value, below)
    ensures out.entries == VisitOne(place, member, below, old(out.entries))
    decreases member
  {
    below := DefaultOrder(member.value);
    DefaultOrderIsValid(member.value);
    match MemberName(place, member.key) {
      case None =>
      case Some(name) => below := Flatten(name, member.value, out);
    }
  }

  datatype ParseError = NotAnObject

  /** Parse: the payload is decoded already (None: it was not JSON); a JSON null decodes to an empty map. */
  method Parse(payload: Option<Json>) returns (claims: Result<Claims, ParseError>)
    ensures claims.Ok? <==> payload.Some? && (payload.value.Obj? || payload.value.Null?)
    ensures claims.Ok? ==> ParsesTo(if payload.value.Obj? then payload.value.members else [], claims.value)
    ensures claims.Ok? ==> AreClaimsOf(if payload.value.Obj? then payload.value.members else [], claims.value)
  {
    if payload.None? || !(payload.value.Obj? || payload.value.Null?) {
      return Err(NotAnObject);
    }
    var members := if payload.value.Obj? then payload.value.members else [];
    var out := new ClaimMap();
    ghost var order := FlattenMembers(Top, members, out);
    ParsedClaimsAreLeaves(members, out.entries);
    claims := Ok(out.entries);
  }

  // ----- claims by their paths in the payload -----

  /** The value that the keys of a path lead to, from object to object, is this one and no object itself. */
  ghost predicate Leads(v: Json, path: seq<string>, leaf: Json)
    decreases |path|
  {
    if path == [] then v == leaf && !v.Obj?
    else
      && v.Obj?
      && exists i :: 0 <= i < |v.members| && v.members[i].key == path[0] && Leads(v.members[i].value, path[1..], leaf)
  }

  /** What a scalar reads as; nulls and arrays read as nothing. */
  predicate ReadsAs(v: Json, text: string) {
    || v == Str(text)
    || v == Num(text)
    || (v == Bool(true) && text == "true")
    || (v == Bool(false) && text == "false")
  }

  /** The registered claims, which are matched through verified fields only. */
  predicate IsRegistered(key: string) {
    key == "iss" || key == "sub" || key == "aud" || key == "exp" || key == "nbf" || key == "iat"
  }

  /** The keys joined by dots, the AWS namespace going by "aws". */
  function ClaimName(path: seq<string>): string
    requires path != []
  {
    Join([if path[0] == "https://sts.amazonaws.com/" then "aws" else path[0]] + path[1..], ".")
  }

  /** A scalar under a path that does not start at a registered claim. */
  ghost predicate IsClaimAt(members: seq<Member>, path: seq<string>, name: string, text: string) {
    && path != [] && !IsRegistered(path[0]) && name == ClaimName(path)
    && exists leaf :: Leads(Obj(members), path, leaf) && ReadsAs(leaf, text)
  }

  ghost predicate IsClaim(members: seq<Member>, name: string, text: string) {
    exists path :: IsClaimAt(members, path, name, text)
  }

  lemma JoinInTurn(prefix: string, key: string, rest: seq<string>)
    ensures Join([prefix] + ([key] + rest), ".") == Join([prefix + "." + key] + rest, ".")
  {
    JoinCons(prefix, [key] + rest, ".");
    JoinFirst(prefix + ".", [key] + rest, ".");
    assert ([key] + rest)[1..] == rest;
  }

  lemma TextsAgree(v: Json, text: string)
    ensures ScalarText(v) == Some(text) <==> ReadsAs(v, text)
  {
  }

  /** The path to a leaf that the walk names. */
  lemma {:induction false} LeafHasPath(prefix: string, v: Json, name: string, text: string)
    returns (path: seq<string>, leaf: Json)
    requires IsLeaf(prefix, v, name, text)
    ensures Leads(v, path, leaf) && ReadsAs(leaf, text) && name == Join([prefix] + path, ".")
    decreases v
  {
    if v.Obj? {
      var members := v.members;
      var i :| 0 <= i < |members| && IsLeafOfMember(Under(prefix), members[i], name, text);
      var rest, end := LeafHasPath(prefix + "." + members[i].key, members[i].value, name, text);
      path, leaf := [members[i].key] + rest, end;
      assert path[1..] == rest;
      JoinInTurn(prefix, members[i].key, rest);
    } else {
      path, leaf := [], v;
      assert [prefix] + [] == [prefix];
      TextsAgree(v, text);
    }
  }

  lemma {:induction false} PathIsLeaf(prefix: string, v: Json, path: seq<string>, leaf: Json, text: string)
    requires Leads(v, path, leaf) && ReadsAs(leaf, text)
    ensures IsLeaf(prefix, v, Join([prefix] + path, "."), text)
    decreases |path|
  {
    if path == [] {
      TextsAgree(v, text);
      assert Join([prefix] + path, ".") == prefix;
    } else {
      var i :| 0 <= i < |v.members| && v.members[i].key == path[0] && Leads(v.members[i].value, path[1..], leaf);
      PathIsLeaf(prefix + "." + path[0], v.members[i].value, path[1..], leaf, text);
      assert path == [path[0]] + path[1..];
      JoinInTurn(prefix, path[0], path[1..]);
      assert IsLeafOfMember(Under(prefix), v.members[i], Join([prefix] + path, "."), text);
    }
  }

  lemma LeafIsClaim(members: seq<Member>, name: string, text: string) returns (path: seq<string>)
    requires IsMemberLeaf(Top, members, name, text)
    ensures IsClaimAt(members, path, name, text)
  {
    var i :| 0 <= i < |members| && IsLeafOfMember(Top, members[i], name, text);
    var rest, leaf := LeafHasPath(MemberName(Top, members[i].key).value, members[i].value, name, text);
    path := [members[i].key] + rest;
    assert path[1..] == rest;
    assert Leads(Obj(members), path, leaf);
  }

  lemma ClaimIsLeaf(members: seq<Member>, path: seq<string>, name: string, text: string)
    requires IsClaimAt(members, path, name, text)
    ensures IsMemberLeaf(Top, members, name, text)
  {
    var leaf :| Leads(Obj(members), path, leaf) && ReadsAs(leaf, text);
    var i :| 0 <= i < |members| && members[i].key == path[0] && Leads(members[i].value, path[1..], leaf);
    PathIsLeaf(MemberName(Top, path[0]).value, members[i].value, path[1..], leaf, text);
    assert IsLeafOfMember(Top, members[i], name, text);
  }

  lemma LeavesAreClaims(members: seq<Member>, name: string, text: string)
    ensures IsMemberLeaf(Top, members, name, text) <==> IsClaim(members, name, text)
  {
    if IsMemberLeaf(Top, members, name, text) {
      var path := LeafIsClaim(members, name, text);
    }
    if path :| IsClaimAt(members, path, name, text) {
      ClaimIsLeaf(members, path, name, text);
    }
  }

  // ----- what Parse yields -----

  /** Each claim is one of the payload's, and of each of the payload's the name is there. */
  ghost predicate AreClaimsOf(members: seq<Member>, claims: Claims) {
    && (forall n :: n in claims ==> IsClaim(members, n, claims[n]))
    && (forall n, t :: IsClaim(members, n, t) ==> n in claims)
  }

  /** MAIN: for every order, the claims are the dotted names of exactly the scalars below unregistered keys, each
      with the text of one of them. */
  lemma ParsedClaimsAreLeaves(members: seq<Member>, claims: Claims)
    requires ParsesTo(members, claims)
    ensures AreClaimsOf(members, claims)
  {
    var order :| ValidVisits(members, order) && VisitsAll(members, order)
                 && claims == VisitIn(Top, members, order, map[]);
    VisitOverlays(Top, members, order, map[]);
    AllVisitedLeaves(Top, members, order);
    forall n, t ensures (n, t) in MemberLeaves(Top, members) <==> IsClaim(members, n, t) {
      LeavesAreClaims(members, n, t);
    }
  }

  lemma EveryLeafIsKeptBySomeOrder(members: seq<Member>, name: string, text: string)
    requires IsClaim(members, name, text)
    ensures exists claims: Claims :: ParsesTo(members, claims) && name in claims && claims[name] == text
  {
    LeavesAreClaims(members, name, text);
    var order := MemberLeafCanWin(Top, members, name, text, map[]);
    assert ParsesTo(members, VisitIn(Top, members, order, map[]));
  }

  ghost predicate NamesAreUnambiguous(members: seq<Member>) {
    forall n, t, u :: IsClaim(members, n, t) && IsClaim(members, n, u) ==> t == u
  }

  /** MAIN: the map order shows in the result exactly when two leaves share a name with different texts. */
  lemma OrderIsInvisibleIffUnambiguous(members: seq<Member>)
    ensures NamesAreUnambiguous(members) <==>
            forall c: Claims, d: Claims :: ParsesTo(members, c) && ParsesTo(members, d) ==> c == d
  {
    if NamesAreUnambiguous(members) {
      forall c: Claims, d: Claims | ParsesTo(members, c) && ParsesTo(members, d) ensures c == d {
        ParsedClaimsAreLeaves(members, c);
        ParsedClaimsAreLeaves(members, d);
        assert c.Keys == d.Keys;
      }
    } else {
      var n, t, u :| IsClaim(members, n, t) && IsClaim(members, n, u) && t != u;
      var c, d := TwoLeavesTwoResults(members, n, t, u);
    }
  }

  /** Both sides occur. The payload {"a.b": "x", "a": {"b": "y"}}, whose keys are distinct in every object,
      has two leaves named "a.b", and which one is kept is up to the map order. */
  lemma OrderCanShow(members: seq<Member>) returns (c: Claims, d: Claims)
    requires members == [Member("a.b", Str("x")), Member("a", Obj([Member("b", Str("y"))]))]
    ensures !NamesAreUnambiguous(members)
    ensures ParsesTo(members, c) && ParsesTo(members, d)
    ensures "a.b" in c && c["a.b"] == "x" && "a.b" in d && d["a.b"] == "y"
  {
    TopScalarIsClaim(members, 0, "x");
    NestedScalarIsClaim(members, 1, [Member("b", Str("y"))], 0, "y");
    JoinCons("a", ["b"], ".");
    assert ["a"] + ["b"] == ["a", "b"] && "a" + "." + "b" == "a.b";
    c, d := TwoLeavesTwoResults(members, "a.b", "x", "y");
  }

  lemma TopScalarIsClaim(members: seq<Member>, i: nat, text: string)
    requires i < |members| && ReadsAs(members[i].value, text) && !IsRegistered(members[i].key)
    ensures IsClaim(members, ClaimName([members[i].key]), text)
  {
    var path := [members[i].key];
    assert path[1..] == [] && Leads(members[i].value, [], members[i].value);
    assert Leads(Obj(members), path, members[i].value);
    assert IsClaimAt(members, path, ClaimName(path), text);
  }

  lemma NestedScalarIsClaim(members: seq<Member>, i: nat, inner: seq<Member>, k: nat, text: string)
    requires i < |members| && members[i].value == Obj(inner) && !IsRegistered(members[i].key)
    requires k < |inner| && ReadsAs(inner[k].value, text)
    ensures IsClaim(members, ClaimName([members[i].key, inner[k].key]), text)
  {
    var path := [members[i].key, inner[k].key];
    assert path[1..] == [inner[k].key] && path[1..][1..] == [];
    assert Leads(inner[k].value, [], inner[k].value);
    assert Leads(Obj(inner), path[1..], inner[k].value);
    assert Leads(Obj(members), path, inner[k].value);
    assert IsClaimAt(members, path, ClaimName(path), text);
  }

  lemma TwoLeavesTwoResults(members: seq<Member>, n: string, t: string, u: string) returns (c: Claims, d: Claims)
    requires IsClaim(members, n, t) && IsClaim(members, n, u)
    ensures ParsesTo(members, c) && ParsesTo(members, d)
    ensures n in c && c[n] == t && n in d && d[n] == u
  {
    EveryLeafIsKeptBySomeOrder(members, n, t);
    EveryLeafIsKeptBySomeOrder(members, n, u);
    c :| ParsesTo(members, c) && n in c && c[n] == t;
    d :| ParsesTo(members, d) && n in d && d[n] == u;
  }

  // ----- what names can and cannot be -----

  /** A claim name is a first part, alone or followed by a dot and more. */
  lemma NameStarts(path: seq<string>)
    requires path != []
    ensures var root := if path[0] == "https://sts.amazonaws.com/" then "aws" else path[0];
            if |path| == 1 then ClaimName(path) == root else HasPrefix(ClaimName(path), root + ".")
  {
    var root := if path[0] == "https://sts.amazonaws.com/" then "aws" else path[0];
    if |path| == 1 {
      assert [root] + path[1..] == [root];
    } else {
      JoinCons(root, path[1..], ".");
      assert ClaimName(path)[..|root| + 1] == root + ".";
    }
  }

  /** No claim carries a registered name, however deep its leaf sits. */
  lemma ReservedNamesNeverAppear(members: seq<Member>, claims: Claims)
    requires ParsesTo(members, claims)
    ensures forall n :: n in claims ==> !IsRegistered(n)
  {
    ParsedClaimsAreLeaves(members, claims);
    forall n | n in claims ensures !IsRegistered(n) {
      var path :| IsClaimAt(members, path, n, claims[n]);
      NameIsUnregistered(path);
    }
  }

  lemma NameIsUnregistered(path: seq<string>)
    requires path != [] && !IsRegistered(path[0])
    ensures !IsRegistered(ClaimName(path))
  {
    NameStarts(path);
    if |path| > 1 {
      var root := if path[0] == "https://sts.amazonaws.com/" then "aws" else path[0];
      assert ClaimName(path)[|root|] == '.';
      RegisteredNamesHaveNoDot(ClaimName(path), |root|);
    }
  }

  lemma RegisteredNamesHaveNoDot(name: string, k: nat)
    requires k < |name| && name[k] == '.'
    ensures !IsRegistered(name)
  {
  }

  /** The AWS namespace yields: each scalar directly in its object is the claim "aws." and its key, with its own
      text when nothing else bears that name. */
  lemma NamespaceYieldsAwsClaims(members: seq<Member>, claims: Claims, i: nat, inner: seq<Member>, k: nat, text: string)
    requires ParsesTo(members, claims)
    requires i < |members| && members[i] == Member("https://sts.amazonaws.com/", Obj(inner))
    requires k < |inner| && ReadsAs(inner[k].value, text)
    ensures "aws." + inner[k].key in claims
    ensures (forall t :: IsClaim(members, "aws." + inner[k].key, t) ==> t == text) ==>
              claims["aws." + inner[k].key] == text
  {
    ParsedClaimsAreLeaves(members, claims);
    NestedScalarIsClaim(members, i, inner, k, text);
    var path := ["https://sts.amazonaws.com/", inner[k].key];
    assert path[1..] == [inner[k].key];
    JoinCons("aws", [inner[k].key], ".");
    assert "aws" + "." + inner[k].key == "aws." + inner[k].key;
  }

  /** A dotted name below `key` starts with a stem and a dot only if `key` starts so itself, or is a head of the
      stem that ends where the stem has a dot or the end. */
  lemma NameBelow(key: string, name: string, stem: string)
    requires HasPrefix(name, key + ".") && HasPrefix(name, stem + ".")
    ensures HasPrefix(key, stem + ".") || HasPrefix(stem + ".", key + ".")
  {
    assert name[..|key + "."|] == key + "." && name[..|stem + "."|] == stem + ".";
    assert name[|key|] == '.' && name[|stem|] == '.';
    if |key| > |stem| {
      assert key[..|stem| + 1] == name[..|stem| + 1];
    } else {
      assert (stem + ".")[..|key| + 1] == name[..|key| + 1];
    }
  }

  /** Where a claim named "aws." and more can come from; a bare top-level claim is never one of them. */
  lemma AwsClaimsHaveAwsOrigin(members: seq<Member>, claims: Claims, name: string) returns (path: seq<string>)
    requires ParsesTo(members, claims)
    requires name in claims && HasPrefix(name, "aws.")
    ensures IsClaimAt(members, path, name, claims[name])
    ensures || ((path[0] == "https://sts.amazonaws.com/" || path[0] == "aws") && |path| > 1)
            || HasPrefix(path[0], "aws.")
  {
    ParsedClaimsAreLeaves(members, claims);
    path :| IsClaimAt(members, path, name, claims[name]);
    NameStarts(path);
    if path[0] != "https://sts.amazonaws.com/" && |path| > 1 {
      AwsHead(path[0], name);
    }
  }

  lemma AwsHead(key: string, name: string)
    requires HasPrefix(name, key + ".") && HasPrefix(name, "aws.")
    ensures key == "aws" || HasPrefix(key, "aws.")
  {
    assert "aws" + "." == "aws.";
    NameBelow(key, name, "aws");
    if HasPrefix("aws" + ".", key + ".") {
      assert ("aws" + ".")[|key|] == (key + ".")[|key|] == '.';
      assert |key| == 3;
      assert key == ("aws" + ".")[..3];
    }
  }

  /** No claim goes by the namespace's own name, but for look-alikes: one that starts with the namespace and a dot
      comes from a top-level key that starts so itself, or from an object under one of two shorter keys, whose
      nested keys spell out the rest. */
  lemma NamespaceLookAlikes(members: seq<Member>, claims: Claims, name: string) returns (path: seq<string>)
    requires ParsesTo(members, claims)
    requires name in claims && HasPrefix(name, "https://sts.amazonaws.com/.")
    ensures IsClaimAt(members, path, name, claims[name])
    ensures || HasPrefix(path[0], "https://sts.amazonaws.com/.")
            || (|path| > 1 && (path[0] == "https://sts" || path[0] == "https://sts.amazonaws"))
  {
    ParsedClaimsAreLeaves(members, claims);
    path :| IsClaimAt(members, path, name, claims[name]);
    NameStarts(path);
    NamespaceNameStart(path);
    var stem := "https://sts.amazonaws.com/";
    assert stem + "." == "https://sts.amazonaws.com/.";
    assert name[0] == name[..|stem + "."|][0] == 'h';
    if path[0] != stem && |path| > 1 {
      NameBelow(path[0], name, stem);
      if HasPrefix(stem + ".", path[0] + ".") {
        HeadsOfNamespace(path[0], stem + ".");
      }
    }
  }

  lemma NamespaceNameStart(path: seq<string>)
    requires path != []
    ensures path[0] == "https://sts.amazonaws.com/" ==> ClaimName(path) != "" && ClaimName(path)[0] == 'a'
  {
    NameStarts(path);
    if HasPrefix(ClaimName(path), "aws" + ".") {
      assert ClaimName(path)[0] == ("aws" + ".")[0];
    }
  }

  lemma HeadsOfNamespace(key: string, stem: string)
    requires stem == "https://sts.amazonaws.com/." && HasPrefix(stem, key + ".")
    ensures key == "https://sts" || key == "https://sts.amazonaws" || key == "https://sts.amazonaws.com/"
  {
    var k := |key|;
    assert stem[k] == (key + ".")[k] == '.';
    assert key == stem[..k];
    DotsOfNamespace(stem, k);
    assert stem[..11] == "https://sts" && stem[..21] == "https://sts.amazonaws";
    assert stem[..26] == "https://sts.amazonaws.com/";
  }

  lemma DotsOfNamespace(stem: string, k: nat)
    requires stem == "https://sts.amazonaws.com/." && k < |stem| && stem[k] == '.'
    ensures k == 11 || k == 21 || k == 26
  {
  }

  /** There is such a look-alike: {"https://sts": {"amazonaws": {"com/": {"n": "v"}}}}. */
  lemma LookAlikeExists(members: seq<Member>)
    requires members == [Member("https://sts", Obj([Member("amazonaws", Obj([Member("com/",
                           Obj([Member("n", Str("v"))]))]))]))]
    ensures IsClaim(members, "https://sts.amazonaws.com/.n", "v")
  {
    var three := [Member("n", Str("v"))];
    var two := [Member("com/", Obj(three))];
    var one := [Member("amazonaws", Obj(two))];
    LeadsDown(three, [], Str("v"));
    LeadsDown(two, ["n"], Str("v"));
    LeadsDown(one, ["com/"] + ["n"], Str("v"));
    LeadsDown(members, ["amazonaws"] + (["com/"] + ["n"]), Str("v"));
    var path := ["https://sts"] + (["amazonaws"] + (["com/"] + ["n"]));
    SpelledOut(path);
    assert IsClaimAt(members, path, "https://sts.amazonaws.com/.n", "v");
  }

  /** One object further up. */
  lemma LeadsDown(members: seq<Member>, path: seq<string>, leaf: Json)
    requires members != [] && Leads(members[0].value, path, leaf)
    ensures Leads(Obj(members), [members[0].key] + path, leaf)
  {
    assert ([members[0].key] + path)[1..] == path;
  }

  lemma SpelledOut(path: seq<string>)
    requires path == ["https://sts"] + (["amazonaws"] + (["com/"] + ["n"]))
    ensures ClaimName(path) == "https://sts.amazonaws.com/.n"
  {
    JoinCons("com/", ["n"], ".");
    JoinCons("amazonaws", ["com/"] + ["n"], ".");
    JoinCons("https://sts", ["amazonaws"] + (["com/"] + ["n"]), ".");
    assert path[1..] == ["amazonaws"] + (["com/"] + ["n"]);
    assert "com/" + "." + "n" == "com/.n";
    assert "amazonaws" + "." + "com/.n" == "amazonaws.com/.n";
    assert "https://sts" + "." + "amazonaws.com/.n" == "https://sts.amazonaws.com/.n";
  }
}
