/** Documentation endpoints: grouped by tag, given an id from tag and index, and found again by it. */
module Endpoints {
  import opened Options
  import Decimal

  datatype Endpoint = Endpoint(tag: string, path: string)

  function TagOf(ep: Endpoint): string {
    if ep.tag == "" then "default" else ep.tag
  }

  /** The endpoints of one tag, in their order. */
  function WithTag(eps: seq<Endpoint>, tag: string): seq<Endpoint> {
    if eps == [] then []
    else WithTag(eps[..|eps| - 1], tag) + if TagOf(eps[|eps| - 1]) == tag then [eps[|eps| - 1]] else []
  }

  datatype Groups = Groups(groups: map<string, seq<Endpoint>>, order: seq<string>)

  /** The index of the first endpoint of a tag, or the number of endpoints. */
  function FirstAt(eps: seq<Endpoint>, tag: string): nat {
    if eps == [] then 0
    else
      var i := FirstAt(eps[..|eps| - 1], tag);
      if i < |eps| - 1 || TagOf(eps[|eps| - 1]) == tag then i else i + 1
  }

  lemma {:induction false} FirstAtIsFirst(eps: seq<Endpoint>, tag: string)
    ensures FirstAt(eps, tag) <= |eps|
    ensures FirstAt(eps, tag) < |eps| ==> TagOf(eps[FirstAt(eps, tag)]) == tag
    ensures forall j :: 0 <= j < FirstAt(eps, tag) ==> TagOf(eps[j]) != tag
  {
    hide TagOf;
    if eps != [] {
      FirstAtIsFirst(eps[..|eps| - 1], tag);
    }
  }

  lemma {:induction false} FirstAtListed(eps: seq<Endpoint>, tag: string)
    ensures FirstAt(eps, tag) <= |eps|
    ensures FirstAt(eps, tag) < |eps| <==> WithTag(eps, tag) != []
  {
    hide TagOf;
    if eps != [] {
      FirstAtListed(eps[..|eps| - 1], tag);
    }
  }

  /** The tags follow their first endpoints. */
  ghost predicate InOrder(eps: seq<Endpoint>, order: seq<string>) {
    forall i, j :: 0 <= i < j < |order| ==> FirstAt(eps, order[i]) < FirstAt(eps, order[j])
  }

  /** A stable partition by tag: each group holds its tag's endpoints in order, no group is empty, and
      the order lists each tag once, in order of appearance. */
  ghost predicate Partition(eps: seq<Endpoint>, g: Groups) {
    && (forall t :: t in g.groups ==> g.groups[t] == WithTag(eps, t) && g.groups[t] != [])
    && (forall t :: t !in g.groups ==> WithTag(eps, t) == [])
    && Lists(g.order, g.groups.Keys)
    && InOrder(eps, g.order)
  }

  /** The names, each once. */
  predicate Lists(order: seq<string>, names: set<string>) {
    if order == [] then names == {}
    else order[|order| - 1] in names && Lists(order[..|order| - 1], names - {order[|order| - 1]})
  }

  /** No tag is a name that every plain object already answers to, such as "constructor": a group of
      such a name seems to exist, but it is no list, so adding to it throws. */
  predicate Groupable(eps: seq<Endpoint>, inherited: set<string>) {
    forall i :: 0 <= i < |eps| ==> TagOf(eps[i]) !in inherited
  }

  /** Grouping throws exactly when some tag is an inherited name; otherwise it partitions. */
  method GroupByTag(eps: seq<Endpoint>, inherited: set<string>) returns (r: Option<Groups>)
    ensures r.Some? <==> Groupable(eps, inherited)
    ensures r.Some? <==> forall i :: 0 <= i < |eps| ==> (if eps[i].tag == "" then "default" else eps[i].tag) !in inherited
    ensures r.Some? ==> Partition(eps, r.value) && GroupsByRule(eps, r.value)
  {
    hide GroupsByRule;
    var g := Groups(map[], []);
    for i := 0 to |eps|
      invariant Groupable(eps[..i], inherited)
      invariant Partition(eps[..i], g)
    {
      if TagOf(eps[i]) in inherited {
        return None;
      }
      assert eps[..i + 1] == eps[..i] + [eps[i]];
      PartitionNext(eps[..i], eps[i], g);
      g := AddEndpoint(g, eps[i]);
    }
    assert eps[..|eps|] == eps;
    PartitionByRule(eps, g);
    r := Some(g);
  }

  lemma {:induction false} WithTagSnoc(eps: seq<Endpoint>, ep: Endpoint, tag: string)
    ensures WithTag(eps + [ep], tag) == WithTag(eps, tag) + if TagOf(ep) == tag then [ep] else []
  {
    assert (eps + [ep])[..|eps|] == eps;
  }

  /** One more endpoint, in the group of its tag. */
  function AddEndpoint(g: Groups, ep: Endpoint): Groups {
    var tag := TagOf(ep);
    Groups(g.groups[tag := (if tag in g.groups then g.groups[tag] else []) + [ep]],
           if tag in g.groups then g.order else g.order + [tag])
  }

  lemma {:induction false} PartitionNext(eps: seq<Endpoint>, ep: Endpoint, g: Groups)
    requires Partition(eps, g)
    ensures Partition(eps + [ep], AddEndpoint(g, ep))
  {
    var g' := AddEndpoint(g, ep);
    forall t
      ensures t in g'.groups ==> g'.groups[t] == WithTag(eps + [ep], t) && g'.groups[t] != []
      ensures t !in g'.groups ==> WithTag(eps + [ep], t) == []
    {
      WithTagSnoc(eps, ep, t);
    }
    ListsNext(g.order, g.groups.Keys, TagOf(ep));
    assert g'.groups.Keys == g.groups.Keys + {TagOf(ep)};
    OrderNext(eps, ep, g);
  }

  lemma {:induction false} FirstAtSnoc(eps: seq<Endpoint>, ep: Endpoint, tag: string)
    ensures FirstAt(eps + [ep], tag)
         == if FirstAt(eps, tag) < |eps| then FirstAt(eps, tag) else if TagOf(ep) == tag then |eps| else |eps| + 1
  {
    assert (eps + [ep])[..|eps|] == eps;
    FirstAtListed(eps, tag);
  }

  lemma {:induction false} ListedNames(order: seq<string>, names: set<string>, i: nat)
    requires Lists(order, names) && i < |order|
    ensures order[i] in names
  {
    if i < |order| - 1 {
      ListedNames(order[..|order| - 1], names - {order[|order| - 1]}, i);
    }
  }

  lemma {:induction false} OrderNext(eps: seq<Endpoint>, ep: Endpoint, g: Groups)
    requires Partition(eps, g)
    ensures InOrder(eps + [ep], AddEndpoint(g, ep).order)
  {
    hide FirstAt, WithTag, Lists;
    var order := AddEndpoint(g, ep).order;
    forall i, j | 0 <= i < j < |order|
      ensures FirstAt(eps + [ep], order[i]) < FirstAt(eps + [ep], order[j])
    {
      FirstAtSnoc(eps, ep, order[i]);
      FirstAtSnoc(eps, ep, order[j]);
      FirstAtListed(eps, order[i]);
      FirstAtListed(eps, order[j]);
      ListedNames(g.order, g.groups.Keys, i);
      if j < |g.order| {
        ListedNames(g.order, g.groups.Keys, j);
      }
    }
  }

  lemma {:induction false} ListsNext(order: seq<string>, names: set<string>, name: string)
    requires Lists(order, names)
    ensures name !in names ==> Lists(order + [name], names + {name})
    ensures name in names ==> names + {name} == names
  {
    assert (order + [name])[..|order|] == order;
    if name !in names {
      assert (names + {name}) - {name} == names;
    }
  }

  // ----- Which endpoints a group holds -----

  /** An endpoint without a tag is in the group "default", any other in that of its own tag. */
  predicate InGroup(ep: Endpoint, tag: string) {
    (ep.tag == "" && tag == "default") || (ep.tag != "" && tag == ep.tag)
  }

  /** The group is the endpoints at these places, which are in order all those of the tag. */
  ghost predicate Picks(eps: seq<Endpoint>, tag: string, group: seq<Endpoint>, places: seq<nat>) {
    && |group| == |places|
    && (forall k :: 0 <= k < |places| ==> places[k] < |eps| && group[k] == eps[places[k]] && InGroup(group[k], tag))
    && (forall k, l :: 0 <= k < l < |places| ==> places[k] < places[l])
    && (forall i: nat :: i < |eps| && InGroup(eps[i], tag) ==> i in places)
  }

  /** A group per tag there is, each of its tag's endpoints in order, and each tag once, in the order of the
      first endpoints. */
  ghost predicate GroupsByRule(eps: seq<Endpoint>, g: Groups) {
    && (forall t :: t in g.groups <==> exists i :: 0 <= i < |eps| && InGroup(eps[i], t))
    && (forall t :: t in g.groups ==> exists places :: Picks(eps, t, g.groups[t], places))
    && (forall t :: t in g.groups <==> t in g.order)
    && (forall i, j :: 0 <= i < j < |g.order| ==> ComesFirst(eps, g.order[i], g.order[j]))
  }

  /** Some endpoint of the first tag stands before every endpoint of the second. */
  ghost predicate ComesFirst(eps: seq<Endpoint>, a: string, b: string) {
    exists i :: 0 <= i < |eps| && InGroup(eps[i], a) && forall j :: 0 <= j <= i ==> !InGroup(eps[j], b)
  }

  lemma {:induction false} TagOfIs(ep: Endpoint, tag: string)
    ensures TagOf(ep) == tag <==> InGroup(ep, tag)
  {
  }

  lemma {:induction false} WithTagPicks(eps: seq<Endpoint>, tag: string) returns (places: seq<nat>)
    ensures Picks(eps, tag, WithTag(eps, tag), places)
  {
    hide TagOf, InGroup;
    places := [];
    if eps != [] {
      var n := |eps| - 1;
      var front, ep := eps[..n], eps[n];
      places := WithTagPicks(front, tag);
      TagOfIs(ep, tag);
      assert eps == front + [ep];
      WithTagSnoc(front, ep, tag);
      if InGroup(ep, tag) {
        PicksMore(front, ep, tag, WithTag(front, tag), places);
        places := places + [n];
      } else {
        assert WithTag(front, tag) + [] == WithTag(front, tag);
        PicksSame(front, ep, tag, WithTag(front, tag), places);
      }
    }
  }

  lemma {:induction false} PicksMore(eps: seq<Endpoint>, ep: Endpoint, tag: string, group: seq<Endpoint>, places: seq<nat>)
    requires Picks(eps, tag, group, places) && InGroup(ep, tag)
    ensures Picks(eps + [ep], tag, group + [ep], places + [|eps|])
  {
    hide InGroup;
    var places' := places + [|eps|];
    assert places'[|places|] == |eps|;
    forall i: nat | i < |eps| + 1 && InGroup((eps + [ep])[i], tag) ensures i in places' {
      if i < |eps| {
        assert InGroup(eps[i], tag);
      }
    }
  }

  lemma {:induction false} PicksSame(eps: seq<Endpoint>, ep: Endpoint, tag: string, group: seq<Endpoint>, places: seq<nat>)
    requires Picks(eps, tag, group, places) && !InGroup(ep, tag)
    ensures Picks(eps + [ep], tag, group, places)
  {
    hide InGroup;
    forall i: nat | i < |eps| + 1 && InGroup((eps + [ep])[i], tag) ensures i in places {
      if i < |eps| {
        assert InGroup(eps[i], tag);
      }
    }
  }

  lemma {:induction false} FirstAtExists(eps: seq<Endpoint>, tag: string)
    ensures FirstAt(eps, tag) <= |eps|
    ensures FirstAt(eps, tag) < |eps| <==> exists i :: 0 <= i < |eps| && InGroup(eps[i], tag)
    ensures FirstAt(eps, tag) < |eps| ==> InGroup(eps[FirstAt(eps, tag)], tag)
    ensures forall j :: 0 <= j < FirstAt(eps, tag) ==> !InGroup(eps[j], tag)
  {
    hide TagOf, InGroup, FirstAt;
    FirstAtIsFirst(eps, tag);
    forall i | 0 <= i < |eps| ensures TagOf(eps[i]) == tag <==> InGroup(eps[i], tag) {
      TagOfIs(eps[i], tag);
    }
  }

  lemma {:induction false} NamesListed(order: seq<string>, names: set<string>, name: string)
    requires Lists(order, names)
    ensures name in names <==> name in order
  {
    if order != [] {
      NamesListed(order[..|order| - 1], names - {order[|order| - 1]}, name);
    }
  }

  /** A partition groups endpoints by the tags they are given. */
  lemma {:induction false} PartitionByRule(eps: seq<Endpoint>, g: Groups)
    requires Partition(eps, g)
    ensures GroupsByRule(eps, g)
  {
    hide WithTag, FirstAt, Lists, Picks, TagOf, InGroup;
    forall t ensures t in g.groups <==> exists i :: 0 <= i < |eps| && InGroup(eps[i], t) {
      FirstAtListed(eps, t);
      FirstAtExists(eps, t);
    }
    forall t | t in g.groups ensures exists places :: Picks(eps, t, g.groups[t], places) {
      var places := WithTagPicks(eps, t);
    }
    forall t ensures t in g.groups <==> t in g.order {
      NamesListed(g.order, g.groups.Keys, t);
    }
    forall i, j | 0 <= i < j < |g.order| ensures ComesFirst(eps, g.order[i], g.order[j]) {
      FirstAtExists(eps, g.order[i]);
      FirstAtExists(eps, g.order[j]);
    }
  }

  // ----- Ids -----

  function EndpointId(tag: string, idx: nat): string {
    tag + "-" + Decimal.Render(idx)
  }

  /** The parts between hyphens. */
  function Split(s: string): (parts: seq<string>)
    ensures parts != []
  {
    if s == "" then [""]
    else
      var front := Split(s[..|s| - 1]);
      if s[|s| - 1] == '-' then front + [""]
      else front[|front| - 1 := front[|front| - 1] + [s[|s| - 1]]]
  }

  function Join(parts: seq<string>): string {
    if parts == [] then ""
    else if |parts| == 1 then parts[0]
    else Join(parts[..|parts| - 1]) + "-" + parts[|parts| - 1]
  }

  function LeadingDigits(s: string): (d: string)
    ensures Decimal.AllDigits(d)
  {
    if s == "" || !Decimal.IsDigit(s[0]) then "" else [s[0]] + LeadingDigits(s[1..])
  }

  /** The number at the start of a text, or `None` for not-a-number. */
  function ParseInt(s: string): Option<nat> {
    if LeadingDigits(s) == "" then None else Some(Decimal.Value(LeadingDigits(s)))
  }

  function Find(groups: map<string, seq<Endpoint>>, epId: string): Option<Endpoint> {
    var parts := Split(epId);
    var idx := ParseInt(parts[|parts| - 1]);
    var tag := Join(parts[..|parts| - 1]);
    if tag in groups && idx.Some? && idx.value < |groups[tag]| then Some(groups[tag][idx.value]) else None
  }

  lemma {:induction false} JoinSnoc(parts: seq<string>, p: string)
    ensures Join(parts + [p]) == if parts == [] then p else Join(parts) + "-" + p
  {
    assert (parts + [p])[..|parts|] == parts;
  }

  lemma {:induction false} JoinExtendLast(parts: seq<string>, c: char)
    requires parts != []
    ensures Join(parts[|parts| - 1 := parts[|parts| - 1] + [c]]) == Join(parts) + [c]
  {
    var front, p := parts[..|parts| - 1], parts[|parts| - 1];
    assert parts == front + [p];
    assert parts[|parts| - 1 := p + [c]] == front + [p + [c]];
    JoinSnoc(front, p);
    JoinSnoc(front, p + [c]);
    if front != [] {
      assert Join(front) + "-" + p + [c] == Join(front) + "-" + (p + [c]);
    }
  }

  lemma {:induction false} JoinSplit(s: string)
    ensures Join(Split(s)) == s
  {
    if s != "" {
      var front, c := s[..|s| - 1], s[|s| - 1];
      JoinSplit(front);
      if c == '-' {
        JoinSnoc(Split(front), "");
        assert Join(Split(front)) + "-" + "" == front + [c] == s;
      } else {
        JoinExtendLast(Split(front), c);
        assert front + [c] == s;
      }
    }
  }

  lemma {:induction false} SplitSnoc(s: string, c: char)
    ensures
      var front := Split(s);
      Split(s + [c]) == if c == '-' then front + [""] else front[|front| - 1 := front[|front| - 1] + [c]]
  {
    assert (s + [c])[..|s|] == s;
  }

  lemma {:induction false} SplitId(tag: string, digits: string)
    requires Decimal.AllDigits(digits)
    ensures Split(tag + "-" + digits) == Split(tag) + [digits]
    decreases |digits|
  {
    if digits == "" {
      assert tag + "-" + digits == tag + ['-'];
      SplitSnoc(tag, '-');
    } else {
      var front, c := digits[..|digits| - 1], digits[|digits| - 1];
      assert Decimal.IsDigit(c) && Decimal.AllDigits(front);
      SplitId(tag, front);
      assert tag + "-" + digits == (tag + "-" + front) + [c];
      SplitSnoc(tag + "-" + front, c);
      assert front + [c] == digits;
    }
  }

  lemma {:induction false} LeadingAll(s: string)
    requires Decimal.AllDigits(s)
    ensures LeadingDigits(s) == s
  {
    if s != "" {
      assert Decimal.AllDigits(s[1..]);
      LeadingAll(s[1..]);
    }
  }

  lemma {:induction false} SplitTag(tag: string, digits: string, last: string, front: seq<string>)
    requires Decimal.AllDigits(digits)
    requires last == Split(tag + "-" + digits)[|Split(tag + "-" + digits)| - 1]
    requires front == Split(tag + "-" + digits)[..|Split(tag + "-" + digits)| - 1]
    ensures last == digits && Join(front) == tag
  {
    SplitId(tag, digits);
    JoinSplit(tag);
    assert (Split(tag) + [digits])[..|Split(tag)|] == Split(tag);
  }

  lemma {:induction false} ParseDigits(digits: string, n: nat)
    requires Decimal.AllDigits(digits) && digits != "" && Decimal.Value(digits) == n
    ensures ParseInt(digits) == Some(n)
  {
    LeadingAll(digits);
  }

  lemma {:induction false} FindDigits(groups: map<string, seq<Endpoint>>, tag: string, digits: string, n: nat)
    requires Decimal.AllDigits(digits) && ParseInt(digits) == Some(n)
    requires tag in groups && n < |groups[tag]|
    ensures Find(groups, tag + "-" + digits) == Some(groups[tag][n])
  {
    var parts := Split(tag + "-" + digits);
    SplitTag(tag, digits, parts[|parts| - 1], parts[..|parts| - 1]);
  }

  /** The id of an endpoint, built from its tag and its index in the group, finds that endpoint again,
      for every tag, hyphens included. */
  lemma FindInvertsId(eps: seq<Endpoint>, g: Groups, tag: string, idx: nat)
    requires Partition(eps, g) && tag in g.groups && idx < |g.groups[tag]|
    ensures idx < |WithTag(eps, tag)|
    ensures Find(g.groups, EndpointId(tag, idx)) == Some(WithTag(eps, tag)[idx])
  {
    Decimal.ValueRender(idx);
    ParseDigits(Decimal.Render(idx), idx);
    FindDigits(g.groups, tag, Decimal.Render(idx), idx);
  }
}
