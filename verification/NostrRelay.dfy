/**
 * The in-memory relay (src/class/relay.ts): a cache of recent events, the
 * subscriptions of the connected sessions, and what is sent to whom.
 */
module NostrRelay {
  import opened Basics
  import opened InsertionMap
  import opened Sorting

  /** A Nostr event; the id is the 32-byte hash as a number, the rest of it does not matter here. */
  datatype Event = Event(id: nat, createdAt: int, kind: int, pubkey: nat, tags: seq<seq<string>>)

  /** A "#x" entry of a filter: its name after the "#", and its values. */
  datatype TagFilter = TagFilter(name: string, terms: seq<string>)

  datatype Filter = Filter(ids: Option<seq<nat>>, authors: Option<seq<nat>>, kinds: Option<seq<int>>,
                           since: Option<int>, until: Option<int>, limit: Option<int>, tags: seq<TagFilter>)

  datatype Message =
    | EventMsg(subId: string, event: Event)
    | Eose(subId: string)
    | OkMsg(id: nat, accepted: bool)
    | Notice

  // ------------------------------------------------------------------------- filters

  /** The one-letter tag name a "#..." entry stands for. */
  function Letter(f: TagFilter): string {
    if |f.name| == 0 then "" else f.name[..1]
  }

  /** The filter is about this tag. */
  predicate NamedBy(tag: seq<string>, f: TagFilter) {
    tag != [] && tag[0] == Letter(f)
  }

  predicate AllIn(f: TagFilter, values: seq<string>) {
    forall i :: 0 <= i < |f.terms| ==> f.terms[i] in values
  }

  predicate TagAllowed(tag: seq<string>, f: TagFilter) {
    NamedBy(tag, f) ==> AllIn(f, tag[1..])
  }

  /** What match_tags decides: every tag of a filtered name holds all of the filter's values. */
  predicate TagsMatch(fs: seq<TagFilter>, tags: seq<seq<string>>) {
    forall i, j :: 0 <= i < |fs| && 0 <= j < |tags| ==> TagAllowed(tags[j], fs[i])
  }

  method MatchTags(fs: seq<TagFilter>, tags: seq<seq<string>>) returns (ok: bool)
    ensures ok == TagsMatch(fs, tags)
  {
    for i := 0 to |fs|
      invariant forall k, j :: 0 <= k < i && 0 <= j < |tags| ==> TagAllowed(tags[j], fs[k])
    {
      for j := 0 to |tags|
        invariant forall k :: 0 <= k < j ==> TagAllowed(tags[k], fs[i])
      {
        if tags[j] != [] && tags[j][0] == Letter(fs[i]) {
          for t := 0 to |fs[i].terms|
            invariant forall k :: 0 <= k < t ==> fs[i].terms[k] in tags[j][1..]
          {
            if fs[i].terms[t] !in tags[j][1..] {
              assert !TagAllowed(tags[j], fs[i]);
              return false;
            }
          }
        }
      }
    }
    return true;
  }

  predicate Allows<T(==)>(list: Option<seq<T>>, x: T) {
    list.None? || x in list.value
  }

  predicate MatchFilter(e: Event, f: Filter) {
    && Allows(f.ids, e.id)
    && (f.since.Some? ==> e.createdAt >= f.since.value)
    && (f.until.Some? ==> e.createdAt <= f.until.value)
    && Allows(f.authors, e.pubkey)
    && Allows(f.kinds, e.kind)
    && TagsMatch(f.tags, e.tags)
  }

  /** NIP-01, section "Communication between clients and relays": some tag of that name holds one of the values. */
  ghost predicate Nip01Tag(f: TagFilter, tags: seq<seq<string>>) {
    exists j :: 0 <= j < |tags| && |tags[j]| > 1 && tags[j][0] == Letter(f) && tags[j][1] in f.terms
  }

  /** Some tag the filter is about. */
  ghost predicate HasTag(f: TagFilter, tags: seq<seq<string>>) {
    exists j :: 0 <= j < |tags| && NamedBy(tags[j], f)
  }

  ghost predicate IsListed(f: TagFilter, v: string) {
    exists i :: 0 <= i < |f.terms| && f.terms[i] == v
  }

  /** No value the filter lists stands in such a tag beyond its first place, where relay hints and the like stand. */
  ghost predicate ListedOnlyFirst(f: TagFilter, tags: seq<seq<string>>) {
    forall j, k :: 0 <= j < |tags| && NamedBy(tags[j], f) && 2 <= k < |tags[j]| ==> !IsListed(f, tags[j][k])
  }

  /** Every such tag has a value, and it and everything the filter lists are one and the same. */
  ghost predicate OneValue(f: TagFilter, tags: seq<seq<string>>) {
    exists v :: v in f.terms && AllAre(f, tags, v)
  }

  ghost predicate AllAre(f: TagFilter, tags: seq<seq<string>>, v: string) {
    && (forall i :: 0 <= i < |f.terms| ==> f.terms[i] == v)
    && (forall j :: 0 <= j < |tags| && NamedBy(tags[j], f) ==> |tags[j]| > 1 && tags[j][1] == v)
  }

  lemma AllowsOneFirst(f: TagFilter, tags: seq<seq<string>>, j: nat)
    requires f.terms != [] && j < |tags| && NamedBy(tags[j], f) && ListedOnlyFirst(f, tags)
    ensures TagAllowed(tags[j], f) <==> |tags[j]| > 1 && forall i :: 0 <= i < |f.terms| ==> f.terms[i] == tags[j][1]
  {
    var tag := tags[j];
    assert f.terms[0] in f.terms;
    forall i | 0 <= i < |f.terms| ensures f.terms[i] in tag[1..] <==> |tag| > 1 && f.terms[i] == tag[1] {
      if f.terms[i] in tag[1..] {
        var k :| 0 <= k < |tag[1..]| && tag[1..][k] == f.terms[i];
        assert tag[k + 1] == f.terms[i] && IsListed(f, tag[k + 1]);
      } else if |tag| > 1 {
        assert tag[1..][0] == tag[1];
      }
    }
    if TagAllowed(tag, f) {
      assert f.terms[0] in tag[1..];
    }
  }

  lemma MatchIsOneValue(f: TagFilter, tags: seq<seq<string>>)
    requires f.terms != [] && HasTag(f, tags) && ListedOnlyFirst(f, tags)
    ensures TagsMatch([f], tags) <==> OneValue(f, tags)
  {
    assert [f][0] == f;
    forall j | 0 <= j < |tags| && NamedBy(tags[j], f)
      ensures TagAllowed(tags[j], f) <==> |tags[j]| > 1 && forall i :: 0 <= i < |f.terms| ==> f.terms[i] == tags[j][1]
    {
      AllowsOneFirst(f, tags, j);
    }
    if TagsMatch([f], tags) {
      var j :| 0 <= j < |tags| && NamedBy(tags[j], f);
      assert TagAllowed(tags[j], [f][0]);
      assert f.terms[0] == tags[j][1];
      forall k | 0 <= k < |tags| && NamedBy(tags[k], f) ensures |tags[k]| > 1 && tags[k][1] == f.terms[0] {
        assert TagAllowed(tags[k], [f][0]);
      }
      assert AllAre(f, tags, f.terms[0]);
    }
  }

  /**
   * The relay's tag rule is not NIP-01's: it asks that every tag of the name holds
   * all listed values, NIP-01 that some tag holds any of them first. They agree
   * exactly when the filter lists a value, the event has a tag of the name, and, if
   * a listed value stands first in such a tag, there is only one value: all such
   * tags and all listed values are it.
   */
  lemma TagRulesAgreeIff(f: TagFilter, tags: seq<seq<string>>)
    requires ListedOnlyFirst(f, tags)
    ensures (TagsMatch([f], tags) <==> Nip01Tag(f, tags))
            <==> (f.terms != [] && HasTag(f, tags) && (Nip01Tag(f, tags) ==> OneValue(f, tags)))
  {
    if f.terms == [] {
      assert TagsMatch([f], tags) && !Nip01Tag(f, tags);
    } else if !HasTag(f, tags) {
      MissingTagPasses(f, tags);
    } else {
      MatchIsOneValue(f, tags);
      if OneValue(f, tags) {
        var j :| 0 <= j < |tags| && NamedBy(tags[j], f);
        assert f.terms[0] in f.terms && tags[j][1] == f.terms[0];
        assert Nip01Tag(f, tags);
      }
    }
  }

  /** Value v stands in the tag after its first value, where relay hints and the like stand. */
  ghost predicate Later(tag: seq<string>, v: string) {
    exists k :: 2 <= k < |tag| && tag[k] == v
  }

  /** Every tag of the name holds every listed value, and none of them first. */
  ghost predicate OnlyLater(f: TagFilter, tags: seq<seq<string>>) {
    forall j :: 0 <= j < |tags| && NamedBy(tags[j], f) ==>
      && (|tags[j]| > 1 ==> !IsListed(f, tags[j][1]))
      && forall i :: 0 <= i < |f.terms| ==> Later(tags[j], f.terms[i])
  }

  lemma LaterIsIn(tag: seq<string>, v: string)
    requires tag != []
    ensures v in tag[1..] <==> (|tag| > 1 && tag[1] == v) || Later(tag, v)
  {
    var values := tag[1..];
    assert forall k :: 1 <= k < |tag| ==> tag[k] == values[k - 1];
    assert forall k :: 0 <= k < |values| ==> values[k] == tag[k + 1];
  }

  lemma LaterAllowed(f: TagFilter, tag: seq<string>)
    requires NamedBy(tag, f) && (|tag| > 1 ==> !IsListed(f, tag[1]))
    ensures TagAllowed(tag, f) <==> forall i :: 0 <= i < |f.terms| ==> Later(tag, f.terms[i])
  {
    forall i | 0 <= i < |f.terms| ensures f.terms[i] in tag[1..] <==> Later(tag, f.terms[i]) {
      LaterIsIn(tag, f.terms[i]);
    }
  }

  lemma NotListedFirst(f: TagFilter, tags: seq<seq<string>>, j: nat)
    requires j < |tags| && NamedBy(tags[j], f) && !Nip01Tag(f, tags)
    ensures |tags[j]| > 1 ==> !IsListed(f, tags[j][1])
  {
    assert forall i :: 0 <= i < |f.terms| ==> f.terms[i] in f.terms;
  }

  /**
   * What the relay accepts and NIP-01 does not, exactly, wherever values stand:
   * the filter lists no value, the event lacks the tag, or every tag of the name
   * holds all listed values in later places only.
   */
  lemma AcceptsTooMuchIff(f: TagFilter, tags: seq<seq<string>>)
    ensures TagsMatch([f], tags) && !Nip01Tag(f, tags) <==> f.terms == [] || !HasTag(f, tags) || OnlyLater(f, tags)
  {
    assert [f][0] == f;
    if !Nip01Tag(f, tags) {
      forall j | 0 <= j < |tags| && NamedBy(tags[j], f)
        ensures TagAllowed(tags[j], f) <==> forall i :: 0 <= i < |f.terms| ==> Later(tags[j], f.terms[i])
        ensures |tags[j]| > 1 ==> !IsListed(f, tags[j][1])
      {
        NotListedFirst(f, tags, j);
        LaterAllowed(f, tags[j]);
      }
      assert TagsMatch([f], tags) <==> OnlyLater(f, tags) by {
        assert OnlyLater(f, tags) ==> forall j :: 0 <= j < |tags| ==> TagAllowed(tags[j], f);
        assert TagsMatch([f], tags) ==> forall j :: 0 <= j < |tags| ==> TagAllowed(tags[j], [f][0]);
      }
    } else {
      var j :| 0 <= j < |tags| && |tags[j]| > 1 && tags[j][0] == Letter(f) && tags[j][1] in f.terms;
      assert NamedBy(tags[j], f) && IsListed(f, tags[j][1]);
    }
  }

  /** The input: a tag with another value first and the listed ones after it passes, though NIP-01 refuses it. */
  lemma LaterValuesPass(f: TagFilter, other: string)
    requires f.terms != [] && !IsListed(f, other)
    ensures var tags := [[Letter(f), other] + f.terms];
            HasTag(f, tags) && OnlyLater(f, tags) && TagsMatch([f], tags) && !Nip01Tag(f, tags)
  {
    var tags := [[Letter(f), other] + f.terms];
    assert NamedBy(tags[0], f);
    forall i | 0 <= i < |f.terms| ensures Later(tags[0], f.terms[i]) {
      assert tags[0][i + 2] == f.terms[i];
    }
    AcceptsTooMuchIff(f, tags);
  }

  /** Some tag of the name has a listed value first. */
  ghost predicate FirstListed(f: TagFilter, tag: seq<string>) {
    NamedBy(tag, f) && |tag| > 1 && IsListed(f, tag[1])
  }

  /** The tag of the name lacks a listed value: neither first nor later. */
  ghost predicate Lacks(f: TagFilter, tag: seq<string>) {
    NamedBy(tag, f) && exists i :: 0 <= i < |f.terms| && !(|tag| > 1 && tag[1] == f.terms[i]) && !Later(tag, f.terms[i])
  }

  /**
   * What NIP-01 accepts and the relay does not, exactly: some tag of the name has
   * a listed value first, and some tag of the name, this one or another, lacks one.
   */
  lemma RefusesTooMuchIff(f: TagFilter, tags: seq<seq<string>>)
    ensures Nip01Tag(f, tags) && !TagsMatch([f], tags) <==>
            (exists j :: 0 <= j < |tags| && FirstListed(f, tags[j])) && (exists j :: 0 <= j < |tags| && Lacks(f, tags[j]))
  {
    assert [f][0] == f;
    forall j | 0 <= j < |tags|
      ensures FirstListed(f, tags[j]) <==> |tags[j]| > 1 && tags[j][0] == Letter(f) && tags[j][1] in f.terms
      ensures Lacks(f, tags[j]) <==> !TagAllowed(tags[j], f)
    {
      LacksIsRefused(f, tags[j]);
    }
    if !TagsMatch([f], tags) {
      var i, j :| 0 <= i < |[f]| && 0 <= j < |tags| && !TagAllowed(tags[j], [f][i]);
      assert Lacks(f, tags[j]);
    }
    if exists j :: 0 <= j < |tags| && Lacks(f, tags[j]) {
      var j :| 0 <= j < |tags| && Lacks(f, tags[j]);
      assert !TagAllowed(tags[j], [f][0]);
    }
  }

  lemma LacksIsRefused(f: TagFilter, tag: seq<string>)
    ensures Lacks(f, tag) <==> !TagAllowed(tag, f)
  {
    if NamedBy(tag, f) {
      forall i | 0 <= i < |f.terms|
        ensures f.terms[i] in tag[1..] <==> (|tag| > 1 && tag[1] == f.terms[i]) || Later(tag, f.terms[i])
      {
        LaterIsIn(tag, f.terms[i]);
      }
    }
  }

  /** An event without the tag passes every filter on it. */
  lemma MissingTagPasses(f: TagFilter, tags: seq<seq<string>>)
    requires !HasTag(f, tags)
    ensures TagsMatch([f], tags) && !Nip01Tag(f, tags)
  {
    assert forall j :: 0 <= j < |tags| ==> !NamedBy(tags[j], f);
  }

  /** Of several tags of the name one with another value is enough for the relay to refuse what NIP-01 accepts. */
  lemma SecondTagRefuses(f: TagFilter, tags: seq<seq<string>>, j: nat, k: nat)
    requires j < |tags| && k < |tags| && |tags[j]| > 1 && tags[j][0] == Letter(f) && tags[j][1] in f.terms
    requires |tags[k]| == 2 && tags[k][0] == Letter(f) && tags[k][1] != tags[j][1]
    ensures Nip01Tag(f, tags) && !TagsMatch([f], tags)
  {
    var i :| 0 <= i < |f.terms| && f.terms[i] == tags[j][1];
    assert tags[k][1..] == [tags[k][1]] && [f][0] == f;
    assert !TagAllowed(tags[k], [f][0]);
  }

  // --------------------------------------------------------------------------- cache

  /** Newest first; of two with one created_at, the higher id first. */
  predicate Before(a: Event, b: Event) {
    a.createdAt > b.createdAt || (a.createdAt == b.createdAt && a.id >= b.id)
  }

  ghost predicate Sorted(s: seq<Event>) {
    SortedBy(Before, s)
  }

  /** Of any two, the earlier in the list is newer, or as new with an id that is not lower. */
  ghost predicate NewestFirst(s: seq<Event>) {
    forall i, j :: 0 <= i < j < |s| ==>
      s[i].createdAt > s[j].createdAt || (s[i].createdAt == s[j].createdAt && s[i].id >= s[j].id)
  }

  predicate Ephemeral(e: Event) {
    20000 <= e.kind < 30000
  }

  ghost predicate IdsTellApart(s: seq<Event>) {
    forall i, j :: 0 <= i < j < |s| && s[i].id == s[j].id ==> s[i] == s[j]
  }

  lemma SameLast(a: seq<Event>, b: seq<Event>)
    requires Sorted(a) && Sorted(b) && multiset(a) == multiset(b) && IdsTellApart(a) && a != [] && b != []
    ensures Last(a) == Last(b)
  {
    var x, y := Last(a), Last(b);
    assert x in multiset(b) && y in multiset(a);
    var i :| 0 <= i < |b| && b[i] == x;
    var j :| 0 <= j < |a| && a[j] == y;
    assert i < |b| - 1 ==> Before(x, y);
    assert j < |a| - 1 ==> Before(y, x);
  }

  /** Ids tell events apart, so there is only one sorted order: any correct sort gives this one. */
  lemma {:induction false} SortIsDetermined(a: seq<Event>, b: seq<Event>)
    requires Sorted(a) && Sorted(b) && multiset(a) == multiset(b) && IdsTellApart(a)
    ensures a == b
  {
    assert |a| == |multiset(a)| == |multiset(b)| == |b|;
    if a != [] {
      var f, g := a[..|a| - 1], b[..|b| - 1];
      SameLast(a, b);
      assert multiset(f) == multiset(g) by {
        FrontAndLast(a);
        FrontAndLast(b);
      }
      SortIsDetermined(f, g);
      assert a == f + [Last(a)] && b == g + [Last(b)];
    }
  }

  // -------------------------------------------------------------------------- answers

  /** The events of a list that match a filter, in order. */
  function Matches(s: seq<Event>, f: Filter): seq<Event> {
    if s == [] then []
    else Matches(s[..|s| - 1], f) + if MatchFilter(Last(s), f) then [Last(s)] else []
  }

  /** The first `limit` of a list; all of it without a limit, none of it when the limit is not positive. */
  function Upto(s: seq<Event>, limit: Option<int>): seq<Event> {
    if limit.None? || |s| <= limit.value then s
    else if limit.value <= 0 then []
    else s[..limit.value]
  }

  function AsMessages(subId: string, es: seq<Event>): seq<Message> {
    seq(|es|, i requires 0 <= i < |es| => EventMsg(subId, es[i]))
  }

  /** What a REQ is answered with from the cache, before its EOSE. */
  function Answers(subId: string, fs: seq<Filter>, cache: seq<Event>): seq<Message> {
    if fs == [] then []
    else Answers(subId, fs[..|fs| - 1], cache) + AsMessages(subId, Upto(Matches(cache, Last(fs)), Last(fs).limit))
  }

  lemma {:induction false} MatchesIsPrefix(s: seq<Event>, f: Filter, j: nat)
    requires j <= |s|
    ensures Matches(s[..j], f) <= Matches(s, f)
  {
    if j < |s| {
      MatchesIsPrefix(s[..|s| - 1], f, j);
      assert s[..|s| - 1][..j] == s[..j];
    } else {
      assert s[..j] == s;
    }
  }

  ghost predicate OneOf<T(!new)>(list: Option<seq<T>>, x: T) {
    list.None? || exists k :: 0 <= k < |list.value| && list.value[k] == x
  }

  /** A tag whose name is the first letter of a "#..." entry holds all of its values among its own. */
  ghost predicate TagFits(tag: seq<string>, f: TagFilter) {
    |tag| > 0 && tag[0] == (if f.name == "" then "" else [f.name[0]]) ==>
      forall t :: 0 <= t < |f.terms| ==> exists k :: 1 <= k < |tag| && tag[k] == f.terms[t]
  }

  ghost predicate TagsFit(f: Filter, e: Event) {
    forall i, j :: 0 <= i < |f.tags| && 0 <= j < |e.tags| ==> TagFits(e.tags[j], f.tags[i])
  }

  /**
   * A filter, field by field: listed ids, authors and kinds, if any, include the
   * event's, it was made in the range of times, and its tags fit.
   */
  ghost predicate Fits(e: Event, f: Filter) {
    && OneOf(f.ids, e.id) && OneOf(f.authors, e.pubkey) && OneOf(f.kinds, e.kind)
    && (f.since.None? || f.since.value <= e.createdAt) && (f.until.None? || e.createdAt <= f.until.value)
    && TagsFit(f, e)
  }

  lemma FilterFits(e: Event, f: Filter)
    ensures MatchFilter(e, f) <==> Fits(e, f)
  {
    forall i, j | 0 <= i < |f.tags| && 0 <= j < |e.tags|
      ensures TagAllowed(e.tags[j], f.tags[i]) <==> TagFits(e.tags[j], f.tags[i])
    {
      OneTagFits(e.tags[j], f.tags[i]);
    }
  }

  lemma OneTagFits(tag: seq<string>, f: TagFilter)
    ensures TagAllowed(tag, f) <==> TagFits(tag, f)
  {
    assert f.name != "" ==> f.name[..1] == [f.name[0]];
    if tag != [] {
      var values := tag[1..];
      assert forall k :: 1 <= k < |tag| ==> tag[k] == values[k - 1];
      assert forall k :: 0 <= k < |values| ==> values[k] == tag[k + 1];
    }
  }

  /** The matches are exactly the events that fit, each as often as it is listed. */
  lemma {:induction false} MatchesSelects(s: seq<Event>, f: Filter, e: Event)
    ensures multiset(Matches(s, f))[e] == if Fits(e, f) then multiset(s)[e] else 0
  {
    if s != [] {
      MatchesSelects(s[..|s| - 1], f, e);
      FilterFits(Last(s), f);
      assert s == s[..|s| - 1] + [Last(s)];
    }
  }

  lemma {:induction false} MatchesAreListed(s: seq<Event>, f: Filter, e: Event)
    requires e in Matches(s, f)
    ensures e in s
  {
    var front := s[..|s| - 1];
    if e in Matches(front, f) {
      MatchesAreListed(front, f, e);
    }
  }

  /** An earlier match is before a later event of the list. */
  lemma MatchBefore(s: seq<Event>, f: Filter, e: Event)
    requires s != [] && NewestFirst(s) && e in Matches(s[..|s| - 1], f)
    ensures var l := Last(s); e.createdAt > l.createdAt || (e.createdAt == l.createdAt && e.id >= l.id)
  {
    MatchesAreListed(s[..|s| - 1], f, e);
    var k :| 0 <= k < |s| - 1 && s[k] == e;
  }

  lemma {:induction false} MatchesAreSorted(s: seq<Event>, f: Filter)
    requires NewestFirst(s)
    ensures NewestFirst(Matches(s, f))
  {
    if s != [] {
      var r := Matches(s[..|s| - 1], f);
      MatchesAreSorted(s[..|s| - 1], f);
      forall i | 0 <= i < |r|
        ensures r[i].createdAt > Last(s).createdAt || (r[i].createdAt == Last(s).createdAt && r[i].id >= Last(s).id)
      {
        MatchBefore(s, f, r[i]);
      }
    }
  }

  /** Without room for another match the answer stays as it is; with room a match is added to it. */
  lemma OneMoreAnswer(subId: string, f: Filter, cache: seq<Event>, j: nat)
    requires j < |cache|
    ensures var was, now := Upto(Matches(cache[..j], f), f.limit), Upto(Matches(cache[..j + 1], f), f.limit);
            if MatchFilter(cache[j], f) && (f.limit.Some? ==> |was| < f.limit.value)
            then AsMessages(subId, now) == AsMessages(subId, was) + [EventMsg(subId, cache[j])]
            else now == was
  {
    assert cache[..j + 1][..j] == cache[..j];
  }

  lemma FullAnswer(f: Filter, cache: seq<Event>, j: nat)
    requires j <= |cache| && f.limit.Some? && |Upto(Matches(cache[..j], f), f.limit)| == f.limit.value
    ensures Upto(Matches(cache[..j], f), f.limit) == Upto(Matches(cache, f), f.limit)
  {
    MatchesIsPrefix(cache, f, j);
  }

  /** The loop of _onreq over one filter, with its counter and its early exit. */
  method AnswerFilter(subId: string, f: Filter, cache: seq<Event>) returns (out: seq<Message>)
    ensures out == AsMessages(subId, Upto(Matches(cache, f), f.limit))
  {
    var limitCount := f.limit;
    out := [];
    for j := 0 to |cache|
      invariant out == AsMessages(subId, Upto(Matches(cache[..j], f), f.limit))
      invariant limitCount == if f.limit.Some? then Some(f.limit.value - |out|) else None
      invariant f.limit.Some? && |out| > 0 ==> limitCount.value > 0
    {
      OneMoreAnswer(subId, f, cache, j);
      if limitCount.None? || limitCount.value > 0 {
        if MatchFilter(cache[j], f) {
          out := out + [EventMsg(subId, cache[j])];
          if limitCount.Some? {
            limitCount := Some(limitCount.value - 1);
            if limitCount.value == 0 {
              FullAnswer(f, cache, j + 1);
              break;
            }
          }
        }
      }
    }
    assert cache[..|cache|] == cache;
  }

  // ---------------------------------------------------------------- subscriptions and state

  /** Session ids are the digits of a random number: no "/" in them. */
  type Sid = s: string | '/' !in s witness ""

  datatype Sub = Sub(filters: seq<Filter>, owner: nat, subId: string)

  type Subs = Map<Sub>

  /** A connected session: its random id and the names of its subscriptions. */
  datatype Session = Session(sid: Sid, subs: set<string>)

  datatype Sent = Sent(to: nat, message: Message)

  datatype Relay = Relay(cache: seq<Event>, subs: Subs, sessions: map<nat, Session>, conn: int, sent: seq<Sent>)

  const NewRelay := Relay([], Map([], map[]), map[], 0, [])

  function Uid(sid: Sid, subId: string): string {
    sid + "/" + subId
  }

  lemma UidInjective(a: Sid, x: string, b: Sid, y: string)
    requires Uid(a, x) == Uid(b, y)
    ensures a == b && x == y
  {
    var u := Uid(a, x);
    assert u[|a|] == '/' && u[|b|] == '/';
    assert forall k :: 0 <= k < |a| ==> u[k] == a[k] && a[k] in a;
    assert forall k :: 0 <= k < |b| ==> u[k] == b[k] && b[k] in b;
    assert |a| == |b|;
    assert u[..|a|] == a && u[..|b|] == b && u[|a| + 1..] == x && u[|b| + 1..] == y;
  }

  function To(h: nat, ms: seq<Message>): seq<Sent> {
    seq(|ms|, i requires 0 <= i < |ms| => Sent(h, ms[i]))
  }

  /** One subscription's copies of an event: one for each filter that matches. */
  function Copies(sub: Sub, fs: seq<Filter>, e: Event): seq<Sent> {
    if fs == [] then []
    else Copies(sub, fs[..|fs| - 1], e) + if MatchFilter(e, Last(fs)) then [Sent(sub.owner, EventMsg(sub.subId, e))] else []
  }

  function Forwards(order: seq<string>, table: map<string, Sub>, e: Event): seq<Sent> {
    if order == [] then []
    else Forwards(order[..|order| - 1], table, e)
         + if Last(order) in table then Copies(table[Last(order)], table[Last(order)].filters, e) else []
  }

  function OnReq(r: Relay, h: nat, subId: string, fs: seq<Filter>): Relay
    requires h in r.sessions
  {
    var s := r.sessions[h];
    r.(subs := Put(r.subs, Uid(s.sid, subId), Sub(fs, h, subId)),
       sessions := r.sessions[h := s.(subs := s.subs + {subId})],
       sent := r.sent + To(h, Answers(subId, fs, r.cache) + [Eose(subId)]))
  }

  function OnEvent(r: Relay, h: nat, e: Event, genuine: bool): Relay {
    if !genuine then r.(sent := r.sent + [Sent(h, OkMsg(e.id, false))])
    else r.(cache := if Ephemeral(e) then r.cache else StableSort(Before, r.cache + [e]),
            sent := r.sent + [Sent(h, OkMsg(e.id, true))] + Forwards(r.subs.order, r.subs.table, e))
  }

  function RemSub(r: Relay, h: nat, subId: string): Relay
    requires h in r.sessions
  {
    var s := r.sessions[h];
    r.(subs := Drop(r.subs, {Uid(s.sid, subId)}), sessions := r.sessions[h := s.(subs := s.subs - {subId})])
  }

  /** The keys a session's names stand for. */
  function Uids(s: Session): set<string> {
    set x | x in s.subs :: Uid(s.sid, x)
  }

  function Cleanup(r: Relay, h: nat): Relay
    requires h in r.sessions
  {
    r.(subs := Drop(r.subs, Uids(r.sessions[h])), sessions := r.sessions - {h}, conn := r.conn - 1)
  }

  datatype Input =
    | Open(h: nat, sid: Sid)                            // a socket opens with a fresh handle
    | Req(h: nat, subId: string, filters: seq<Filter>)  // REQ; without filters it is only answered with a NOTICE
    | Publish(h: nat, event: Event, genuine: bool)      // EVENT; genuine when id and signature verify
    | Unsubscribe(h: nat, subId: string)                // CLOSE
    | Unparsed(h: nat)                                  // EVENT with no well-formed event: not answered
    | Junk(h: nat)                                      // anything else: answered with a NOTICE
    | Disconnect(h: nat)
    | Purge                                             // the purge timer

  /** Handles name sockets: only an open one sends, and one opens only once at a time. */
  function Next(r: Relay, i: Input): Relay {
    match i
    case Open(h, sid) => if h in r.sessions then r else r.(sessions := r.sessions[h := Session(sid, {})], conn := r.conn + 1)
    case Req(h, subId, fs) =>
      if h !in r.sessions then r
      else if fs == [] then r.(sent := r.sent + [Sent(h, Notice)])
      else OnReq(r, h, subId, fs)
    case Publish(h, e, genuine) => if h in r.sessions then OnEvent(r, h, e, genuine) else r
    case Unsubscribe(h, subId) => if h in r.sessions then RemSub(r, h, subId) else r
    case Unparsed(_) => r
    case Junk(h) => if h in r.sessions then r.(sent := r.sent + [Sent(h, Notice)]) else r
    case Disconnect(h) => if h in r.sessions then Cleanup(r, h) else r
    case Purge => r.(cache := [])
  }

  function Run(steps: seq<Input>): Relay {
    if steps == [] then NewRelay else Next(Run(steps[..|steps| - 1]), Last(steps))
  }

  // ------------------------------------------------------------------- the cache over runs

  /** What the cache should hold: every genuine event that is not ephemeral, since the last purge. */
  ghost function Kept(steps: seq<Input>): multiset<Event> {
    if steps == [] then multiset{}
    else
      var front, i := steps[..|steps| - 1], Last(steps);
      match i
      case Purge => multiset{}
      case Publish(h, e, genuine) =>
        if h in Run(front).sessions && genuine && !(20_000 <= e.kind <= 29_999) then Kept(front) + multiset{e} else Kept(front)
      case _ => Kept(front)
  }

  lemma CacheStep(r: Relay, h: nat, e: Event)
    requires Sorted(r.cache) && h in r.sessions && forall x :: x in multiset(r.cache) ==> !Ephemeral(x)
    ensures var u := OnEvent(r, h, e, true);
            && Sorted(u.cache)
            && multiset(u.cache) == (if Ephemeral(e) then multiset(r.cache) else multiset(r.cache) + multiset{e})
            && forall x :: x in multiset(u.cache) ==> !Ephemeral(x)
  {
    SortPermutes(Before, r.cache + [e]);
    SortSorts(Before, r.cache + [e]);
  }

  lemma {:induction false} CacheOverRuns(steps: seq<Input>)
    ensures var c := Run(steps).cache;
            Sorted(c) && multiset(c) == Kept(steps) && forall e :: e in multiset(c) ==> !Ephemeral(e)
  {
    if steps != [] {
      CacheOverRuns(steps[..|steps| - 1]);
      var r, i := Run(steps[..|steps| - 1]), Last(steps);
      if i.Publish? && i.h in r.sessions && i.genuine {
        CacheStep(r, i.h, i.event);
      } else {
        assert i.Purge? || Next(r, i).cache == r.cache;
      }
    }
  }

  lemma SortedIsNewestFirst(s: seq<Event>)
    requires Sorted(s)
    ensures NewestFirst(s)
  {
  }

  /** Over any run the cache is newest first, holds no ephemeral event, and holds exactly what was kept. */
  lemma CacheIsWhatWasKept(steps: seq<Input>)
    ensures var c := Run(steps).cache;
            && NewestFirst(c) && multiset(c) == Kept(steps)
            && forall e :: e in multiset(c) ==> e.kind < 20_000 || e.kind > 29_999
  {
    CacheOverRuns(steps);
    SortedIsNewestFirst(Run(steps).cache);
  }

  // ------------------------------------------------------------- the subscription map over runs

  /** Every entry of the relay's map is a subscription its owner lists, under its own key. */
  ghost predicate EntriesAreListed(subs: Subs, sessions: map<nat, Session>) {
    forall u :: u in subs.table ==>
      var sub := subs.table[u];
      sub.owner in sessions && sub.subId in sessions[sub.owner].subs && u == Uid(sessions[sub.owner].sid, sub.subId)
  }

  /** The entry a session's name stands for is that session's. */
  ghost predicate Entered(subs: Subs, h: nat, sid: Sid, x: string) {
    var u := Uid(sid, x);
    u in subs.table && subs.table[u].owner == h && subs.table[u].subId == x
  }

  /** Everything a session lists is in the relay's map. */
  ghost predicate ListedAreEntries(subs: Subs, sessions: map<nat, Session>) {
    forall h, x :: h in sessions && x in sessions[h].subs ==> Entered(subs, h, sessions[h].sid, x)
  }

  /** The relay's map is exactly the union of the open sessions' subscriptions. */
  ghost predicate Union(r: Relay) {
    EntriesAreListed(r.subs, r.sessions) && ListedAreEntries(r.subs, r.sessions)
  }

  ghost predicate Apart(sessions: map<nat, Session>) {
    forall h, k :: h in sessions && k in sessions && h != k ==> sessions[h].sid != sessions[k].sid
  }

  lemma ReqKeepsUnion(r: Relay, h: nat, subId: string, fs: seq<Filter>)
    requires Union(r) && Apart(r.sessions) && h in r.sessions
    ensures Union(OnReq(r, h, subId, fs)) && Apart(OnReq(r, h, subId, fs).sessions)
  {
    var u, sid := OnReq(r, h, subId, fs), r.sessions[h].sid;
    forall k, x | k in u.sessions && x in u.sessions[k].subs
      ensures Entered(u.subs, k, u.sessions[k].sid, x)
    {
      assert u.sessions[k].sid == r.sessions[k].sid;
      if Uid(r.sessions[k].sid, x) == Uid(sid, subId) {
        UidInjective(r.sessions[k].sid, x, sid, subId);
      } else {
        assert Entered(r.subs, k, r.sessions[k].sid, x);
      }
    }
  }

  lemma RemSubKeepsUnion(r: Relay, h: nat, subId: string)
    requires Union(r) && Apart(r.sessions) && h in r.sessions
    ensures Union(RemSub(r, h, subId)) && Apart(RemSub(r, h, subId).sessions)
  {
    var u, sid := RemSub(r, h, subId), r.sessions[h].sid;
    forall k, x | k in u.sessions && x in u.sessions[k].subs
      ensures Entered(u.subs, k, u.sessions[k].sid, x)
    {
      assert u.sessions[k].sid == r.sessions[k].sid;
      assert Entered(r.subs, k, r.sessions[k].sid, x);
      if Uid(r.sessions[k].sid, x) == Uid(sid, subId) {
        UidInjective(r.sessions[k].sid, x, sid, subId);
        assert false;
      }
    }
  }

  lemma CleanupKeepsUnion(r: Relay, h: nat)
    requires Union(r) && Apart(r.sessions) && h in r.sessions
    ensures Union(Cleanup(r, h)) && Apart(Cleanup(r, h).sessions)
    ensures forall u :: u in Cleanup(r, h).subs.table ==> Cleanup(r, h).subs.table[u].owner != h
  {
    var u, gone := Cleanup(r, h), Uids(r.sessions[h]);
    forall k, x | k in u.sessions && x in u.sessions[k].subs
      ensures Entered(u.subs, k, u.sessions[k].sid, x)
    {
      assert Entered(r.subs, k, r.sessions[k].sid, x);
      assert Uid(r.sessions[k].sid, x) !in gone;
    }
  }

  /** Whether a step opens a session under an id that no open session has. */
  ghost predicate UnusedSid(r: Relay, i: Input) {
    i.Open? && i.h !in r.sessions ==> forall k :: k in r.sessions ==> r.sessions[k].sid != i.sid
  }

  ghost predicate UnusedSids(steps: seq<Input>) {
    steps == [] || (UnusedSids(steps[..|steps| - 1]) && UnusedSid(Run(steps[..|steps| - 1]), Last(steps)))
  }

  lemma StepKeepsUnion(r: Relay, i: Input)
    requires Union(r) && Apart(r.sessions) && UnusedSid(r, i)
    ensures Union(Next(r, i)) && Apart(Next(r, i).sessions)
  {
    if i.Req? && i.h in r.sessions && i.filters != [] {
      ReqKeepsUnion(r, i.h, i.subId, i.filters);
    } else if i.Unsubscribe? && i.h in r.sessions {
      RemSubKeepsUnion(r, i.h, i.subId);
    } else if i.Disconnect? && i.h in r.sessions {
      CleanupKeepsUnion(r, i.h);
    } else if i.Open? && i.h !in r.sessions {
      var u := Next(r, i);
      forall k, x | k in u.sessions && x in u.sessions[k].subs ensures Entered(u.subs, k, u.sessions[k].sid, x) {
        assert k != i.h && Entered(r.subs, k, r.sessions[k].sid, x);
      }
    }
  }

  /**
   * While no two open sessions share an id, the relay's subscription map is
   * exactly the union of the open sessions' subscriptions and conn counts the
   * sessions; so once the last one has gone, nothing is left.
   */
  lemma {:induction false} MapIsUnionOfSessions(steps: seq<Input>)
    requires UnusedSids(steps)
    ensures var r := Run(steps);
            && Union(r) && Apart(r.sessions) && r.conn == |r.sessions|
            && (r.sessions == map[] ==> r.subs.table == map[])
  {
    if steps != [] {
      MapIsUnionOfSessions(steps[..|steps| - 1]);
      StepKeepsUnion(Run(steps[..|steps| - 1]), Last(steps));
      ConnStep(Run(steps[..|steps| - 1]), Last(steps));
    }
  }

  lemma ConnStep(r: Relay, i: Input)
    requires r.conn == |r.sessions|
    ensures Next(r, i).conn == |Next(r, i).sessions|
  {
    if i.Disconnect? && i.h in r.sessions {
      assert Next(r, i).sessions.Keys == r.sessions.Keys - {i.h};
    } else if i.Open? && i.h !in r.sessions {
      assert Next(r, i).sessions.Keys == r.sessions.Keys + {i.h};
    } else {
      assert Next(r, i).sessions.Keys == r.sessions.Keys;
    }
  }

  /**
   * Unused ids are needed: whenever two open sessions share an id, the same name
   * requested by one and then the other leaves the first with a subscription the
   * relay no longer has.
   */
  lemma SharedSidLosesSubs(r: Relay, h: nat, k: nat, x: string, fs: seq<Filter>)
    requires h in r.sessions && k in r.sessions && h != k && r.sessions[h].sid == r.sessions[k].sid && fs != []
    ensures !Union(Next(Next(r, Req(h, x, fs)), Req(k, x, fs)))
  {
    var u := Next(Next(r, Req(h, x, fs)), Req(k, x, fs));
    assert x in u.sessions[h].subs && u.subs.table[Uid(u.sessions[h].sid, x)].owner == k;
    assert !Entered(u.subs, h, u.sessions[h].sid, x);
  }

  /** The key order lists every entry of the map once. */
  lemma {:induction false} OrderListsEachOnce(steps: seq<Input>)
    ensures Consistent(Run(steps).subs)
  {
    if steps != [] {
      var r, i := Run(steps[..|steps| - 1]), Last(steps);
      OrderListsEachOnce(steps[..|steps| - 1]);
      if i.Unsubscribe? && i.h in r.sessions {
        DropKeepsConsistent(r.subs, {Uid(r.sessions[i.h].sid, i.subId)});
      } else if i.Disconnect? && i.h in r.sessions {
        DropKeepsConsistent(r.subs, Uids(r.sessions[i.h]));
      }
    }
  }

  // ------------------------------------------------------------------------- forwarding

  ghost function Matching(fs: seq<Filter>, e: Event): nat {
    if fs == [] then 0 else Matching(fs[..|fs| - 1], e) + if MatchFilter(e, Last(fs)) then 1 else 0
  }

  lemma {:induction false} CopiesOf(sub: Sub, fs: seq<Filter>, e: Event, m: Sent)
    ensures multiset(Copies(sub, fs, e))[m] == if m == Sent(sub.owner, EventMsg(sub.subId, e)) then Matching(fs, e) else 0
  {
    if fs != [] {
      CopiesOf(sub, fs[..|fs| - 1], e, m);
    }
  }

  /** Of a list of keys, only the one a session's name stands for sends it copies. */
  lemma {:induction false} ForwardsOf(order: seq<string>, subs: Subs, sessions: map<nat, Session>, e: Event, h: nat, x: string)
    requires forall u :: u in order ==> u in subs.table
    requires Distinct(order)
    requires EntriesAreListed(subs, sessions) && h in sessions
    requires x in sessions[h].subs ==> Entered(subs, h, sessions[h].sid, x)
    ensures multiset(Forwards(order, subs.table, e))[Sent(h, EventMsg(x, e))]
            == if x in sessions[h].subs && Uid(sessions[h].sid, x) in order
               then Matching(subs.table[Uid(sessions[h].sid, x)].filters, e) else 0
  {
    if order != [] {
      var front, u := order[..|order| - 1], Last(order);
      assert order == front + [u];
      LastIsNew(order);
      ForwardsOf(front, subs, sessions, e, h, x);
      CopiesOf(subs.table[u], subs.table[u].filters, e, Sent(h, EventMsg(x, e)));
    }
  }

  /** A message carries e to a subscription its session lists. */
  ghost predicate ToListed(sessions: map<nat, Session>, e: Event, m: Sent) {
    m.to in sessions && m.message.EventMsg? && m.message.event == e && m.message.subId in sessions[m.to].subs
  }

  lemma {:induction false} CopiesAreTo(sub: Sub, fs: seq<Filter>, e: Event)
    ensures forall k :: 0 <= k < |Copies(sub, fs, e)| ==> Copies(sub, fs, e)[k] == Sent(sub.owner, EventMsg(sub.subId, e))
  {
    if fs != [] {
      CopiesAreTo(sub, fs[..|fs| - 1], e);
    }
  }

  /** Nothing else is forwarded to anybody. */
  lemma {:induction false} ForwardsOnlyToListed(order: seq<string>, subs: Subs, sessions: map<nat, Session>, e: Event)
    requires EntriesAreListed(subs, sessions)
    ensures forall k :: 0 <= k < |Forwards(order, subs.table, e)| ==> ToListed(sessions, e, Forwards(order, subs.table, e)[k])
  {
    if order != [] {
      var u := Last(order);
      ForwardsOnlyToListed(order[..|order| - 1], subs, sessions, e);
      if u in subs.table {
        CopiesAreTo(subs.table[u], subs.table[u].filters, e);
      }
    }
  }

  /** The filters that fit an event, by their places. */
  ghost function Fitting(fs: seq<Filter>, e: Event): set<nat> {
    set k: nat | k < |fs| && Fits(e, fs[k])
  }

  lemma OneMoreFits(fs: seq<Filter>, e: Event, fits: bool)
    requires fs != [] && (fits <==> Fits(e, Last(fs)))
    ensures |Fitting(fs, e)| == |Fitting(fs[..|fs| - 1], e)| + if fits then 1 else 0
  {
    var n := |fs| - 1;
    var front := fs[..n];
    var before := Fitting(front, e);
    forall k: nat ensures k in Fitting(fs, e) <==> k in before || (fits && k == n) {
      assert k < n ==> front[k] == fs[k];
    }
    assert Fitting(fs, e) == before + if fits then {n} else {};
  }

  lemma {:induction false} MatchingCounts(fs: seq<Filter>, e: Event)
    ensures Matching(fs, e) == |Fitting(fs, e)|
  {
    if fs == [] {
      assert Fitting(fs, e) == {};
    } else {
      MatchingCounts(fs[..|fs| - 1], e);
      FilterFits(e, Last(fs));
      OneMoreFits(fs, e, MatchFilter(e, Last(fs)));
    }
  }

  /** How many copies of an event a session's subscription is due: one for each filter that fits. */
  ghost function CopiesDue(r: Relay, h: nat, x: string, e: Event): nat
    requires h in r.sessions
  {
    var u := r.sessions[h].sid + "/" + x;
    if x in r.sessions[h].subs && u in r.subs.table then |Fitting(r.subs.table[u].filters, e)| else 0
  }

  /**
   * A genuine event is acknowledged and then sent to every open subscription once
   * for each of its filters that matches.
   */
  lemma EachSubscriptionGetsItsCopies(steps: seq<Input>, from: nat, e: Event, h: nat, x: string)
    requires UnusedSids(steps) && from in Run(steps).sessions && h in Run(steps).sessions
    ensures var r := Run(steps);
            var u := Next(r, Publish(from, e, true));
            && r.sent + [Sent(from, OkMsg(e.id, true))] <= u.sent
            && multiset(u.sent[|r.sent| + 1..])[Sent(h, EventMsg(x, e))] == CopiesDue(r, h, x, e)
            && (x in r.sessions[h].subs ==> Entered(r.subs, h, r.sessions[h].sid, x))
  {
    var r := Run(steps);
    MapIsUnionOfSessions(steps);
    OrderListsEachOnce(steps);
    assert x in r.sessions[h].subs ==> Entered(r.subs, h, r.sessions[h].sid, x);
    ForwardsOf(r.subs.order, r.subs, r.sessions, e, h, x);
    if Uid(r.sessions[h].sid, x) in r.subs.table {
      MatchingCounts(r.subs.table[Uid(r.sessions[h].sid, x)].filters, e);
    }
    AfterOk(r, from, e);
  }

  lemma AfterOk(r: Relay, from: nat, e: Event)
    requires from in r.sessions
    ensures var u := Next(r, Publish(from, e, true));
            && u.sent == r.sent + [Sent(from, OkMsg(e.id, true))] + Forwards(r.subs.order, r.subs.table, e)
            && u.sent[|r.sent| + 1..] == Forwards(r.subs.order, r.subs.table, e)
  {
  }

  /** After the acknowledgement it goes to nobody else: every message carries it to a subscription an open session lists. */
  lemma NobodyElseGetsIt(steps: seq<Input>, from: nat, e: Event)
    requires UnusedSids(steps) && from in Run(steps).sessions
    ensures var r := Run(steps);
            var u := Next(r, Publish(from, e, true));
            |r.sent| < |u.sent| && forall k :: |r.sent| + 1 <= k < |u.sent| ==> ToListed(r.sessions, e, u.sent[k])
  {
    var r := Run(steps);
    MapIsUnionOfSessions(steps);
    ForwardsOnlyToListed(r.subs.order, r.subs, r.sessions, e);
    AfterOk(r, from, e);
  }

  // ------------------------------------------------------------------- what each input does

  /** Everything but the cache, the subscriptions of h and what was sent to h is as it was. */
  ghost predicate OnlyFor(r: Relay, u: Relay, h: nat) {
    && u.cache == r.cache && u.conn == r.conn && r.sent <= u.sent
    && (forall k :: k != h ==> (k in u.sessions <==> k in r.sessions) && (k in r.sessions ==> u.sessions[k] == r.sessions[k]))
    && (forall k :: |r.sent| <= k < |u.sent| ==> u.sent[k].to == h)
  }

  /** The events of the cache a filter asks for: those that fit, newest first, up to the limit. */
  ghost predicate AskedFor(cache: seq<Event>, f: Filter, es: seq<Event>) {
    && es <= Matches(cache, f)
    && |es| == if f.limit.None? then |Matches(cache, f)| else Min(Max(0, f.limit.value), |Matches(cache, f)|)
  }

  ghost predicate Parts(cache: seq<Event>, fs: seq<Filter>, parts: seq<seq<Event>>) {
    |parts| == |fs| && forall k :: 0 <= k < |fs| ==> AskedFor(cache, fs[k], parts[k])
  }

  ghost function Joined(subId: string, parts: seq<seq<Event>>): seq<Message> {
    if parts == [] then [] else Joined(subId, parts[..|parts| - 1]) + AsMessages(subId, Last(parts))
  }

  lemma {:induction false} AnswersAreParts(subId: string, fs: seq<Filter>, cache: seq<Event>) returns (parts: seq<seq<Event>>)
    ensures Parts(cache, fs, parts) && Answers(subId, fs, cache) == Joined(subId, parts)
  {
    if fs == [] {
      parts := [];
    } else {
      var front := fs[..|fs| - 1];
      var rest := AnswersAreParts(subId, front, cache);
      parts := OneMorePart(cache, fs, rest, Upto(Matches(cache, Last(fs)), Last(fs).limit));
    }
  }

  lemma UptoIsAskedFor(cache: seq<Event>, f: Filter)
    ensures AskedFor(cache, f, Upto(Matches(cache, f), f.limit))
  {
  }

  lemma OneMorePart(cache: seq<Event>, fs: seq<Filter>, rest: seq<seq<Event>>, es: seq<Event>) returns (parts: seq<seq<Event>>)
    requires fs != [] && Parts(cache, fs[..|fs| - 1], rest) && es == Upto(Matches(cache, Last(fs)), Last(fs).limit)
    ensures Parts(cache, fs, parts) && parts != [] && parts[..|parts| - 1] == rest && Last(parts) == es
  {
    parts := rest + [es];
    UptoIsAskedFor(cache, Last(fs));
    forall k | 0 <= k < |fs| ensures AskedFor(cache, fs[k], parts[k]) {
      if k < |rest| {
        assert AskedFor(cache, fs[..|fs| - 1][k], rest[k]);
      }
    }
  }

  /**
   * A REQ with filters: the session then lists the subscription and the map has it
   * with these filters, in place of an older one of that name; the client gets,
   * filter by filter, the cached events it asks for, and then EOSE.
   */
  lemma ReqIsAnswered(r: Relay, h: nat, subId: string, fs: seq<Filter>) returns (parts: seq<seq<Event>>)
    requires h in r.sessions && fs != []
    ensures var u := Next(r, Req(h, subId, fs));
            var key := r.sessions[h].sid + "/" + subId;
            && OnlyFor(r, u, h) && h in u.sessions && u.sessions[h] == Session(r.sessions[h].sid, r.sessions[h].subs + {subId})
            && u.subs.table == r.subs.table[key := Sub(fs, h, subId)]
            && Parts(r.cache, fs, parts) && u.sent == r.sent + To(h, Joined(subId, parts) + [Eose(subId)])
  {
    parts := AnswersAreParts(subId, fs, r.cache);
  }

  /** A REQ without filters, and anything that is no message, is answered with a NOTICE; an EVENT that is none not at all. */
  lemma NoticeOnly(r: Relay, h: nat, subId: string)
    requires h in r.sessions
    ensures Next(r, Req(h, subId, [])) == Next(r, Junk(h)) == r.(sent := r.sent + [Sent(h, Notice)])
    ensures Next(r, Unparsed(h)) == r
  {
  }

  /** An event that does not verify is only refused. */
  lemma ForgedEventIsRefused(r: Relay, h: nat, e: Event)
    requires h in r.sessions
    ensures Next(r, Publish(h, e, false)) == r.(sent := r.sent + [Sent(h, OkMsg(e.id, false))])
  {
  }

  /** CLOSE takes exactly that subscription away. */
  lemma CloseRemoves(r: Relay, h: nat, subId: string)
    requires h in r.sessions
    ensures var u := Next(r, Unsubscribe(h, subId));
            && OnlyFor(r, u, h) && u.sent == r.sent && u.subs.table == r.subs.table - {r.sessions[h].sid + "/" + subId}
            && h in u.sessions && u.sessions[h] == Session(r.sessions[h].sid, r.sessions[h].subs - {subId})
  {
  }

  /** A session that opens has no subscription; one that goes takes all of its own along, and nothing of others under other ids. */
  lemma SessionsComeAndGo(r: Relay, h: nat, sid: Sid)
    ensures h !in r.sessions ==>
              Next(r, Open(h, sid)) == r.(sessions := r.sessions[h := Session(sid, {})], conn := r.conn + 1)
    ensures h in r.sessions ==>
              var u := Next(r, Disconnect(h));
              && u.cache == r.cache && u.sent == r.sent && u.sessions == r.sessions - {h} && u.conn == r.conn - 1
              && forall key :: key in u.subs.table <==>
                   key in r.subs.table && !(exists x :: x in r.sessions[h].subs && key == r.sessions[h].sid + "/" + x)
  {
  }

  /** The purge timer empties the cache and nothing else. */
  lemma PurgeEmpties(r: Relay)
    ensures Next(r, Purge) == r.(cache := [])
  {
  }

  /** From a handle without an open socket comes nothing. */
  lemma ClosedSocketsSayNothing(r: Relay, h: nat, subId: string, fs: seq<Filter>, e: Event, genuine: bool)
    requires h !in r.sessions
    ensures Next(r, Req(h, subId, fs)) == Next(r, Publish(h, e, genuine)) == Next(r, Unsubscribe(h, subId)) == r
    ensures Next(r, Junk(h)) == Next(r, Unparsed(h)) == Next(r, Disconnect(h)) == r
  {
  }

  /** A run takes its inputs one after the other, from an empty relay. */
  lemma RunsInOrder(steps: seq<Input>, i: Input)
    ensures Run([]) == Relay([], Map([], map[]), map[], 0, []) && Run(steps + [i]) == Next(Run(steps), i)
  {
    assert (steps + [i])[..|steps|] == steps;
  }

  // --------------------------------------------------------------------- the relay as an object

  lemma ToAppends(h: nat, a: seq<Message>, b: seq<Message>)
    ensures To(h, a + b) == To(h, a) + To(h, b)
  {
  }

  class RelayObject {
    var cache: seq<Event>
    var order: seq<string>
    var table: map<string, Sub>
    var sessions: map<nat, Session>
    var conn: int
    var sent: seq<Sent>

    constructor ()
      ensures View() == NewRelay
    {
      cache, order, table, sessions, conn, sent := [], [], map[], map[], 0, [];
    }

    function View(): Relay
      reads this
    {
      Relay(cache, Map(order, table), sessions, conn, sent)
    }

    method OpenSocket(h: nat, sid: Sid)
      requires h !in sessions
      modifies this
      ensures View() == Next(old(View()), Open(h, sid))
    {
      sessions := sessions[h := Session(sid, {})];
      conn := conn + 1;
    }

    method Send(h: nat, m: Message)
      modifies this`sent
      ensures sent == old(sent) + [Sent(h, m)]
    {
      sent := sent + [Sent(h, m)];
    }

    method AddSub(h: nat, subId: string, fs: seq<Filter>)
      requires h in sessions
      modifies this`order, this`table, this`sessions
      ensures Map(order, table) == Put(Map(old(order), old(table)), Uid(old(sessions)[h].sid, subId), Sub(fs, h, subId))
      ensures sessions == old(sessions)[h := old(sessions)[h].(subs := old(sessions)[h].subs + {subId})]
    {
      var u := Uid(sessions[h].sid, subId);
      if u !in table {
        order := order + [u];
      }
      table := table[u := Sub(fs, h, subId)];
      sessions := sessions[h := sessions[h].(subs := sessions[h].subs + {subId})];
    }

    method RemoveSub(h: nat, subId: string)
      requires h in sessions
      modifies this`order, this`table, this`sessions
      ensures View() == RemSub(old(View()), h, subId)
    {
      var u := Uid(sessions[h].sid, subId);
      order, table := Without(order, {u}), table - {u};
      sessions := sessions[h := sessions[h].(subs := sessions[h].subs - {subId})];
    }

    /** The loop of _onreq over the filters. */
    method SendAnswers(h: nat, subId: string, fs: seq<Filter>)
      modifies this`sent
      ensures sent == old(sent) + To(h, Answers(subId, fs, cache))
    {
      for i := 0 to |fs|
        invariant sent == old(sent) + To(h, Answers(subId, fs[..i], cache))
      {
        assert fs[..i + 1][..i] == fs[..i];
        var out := AnswerFilter(subId, fs[i], cache);
        ToAppends(h, Answers(subId, fs[..i], cache), out);
        sent := sent + To(h, out);
      }
      assert fs[..|fs|] == fs;
    }

    /** REQ: register the subscription, send each filter's events from the cache, then EOSE. */
    method HandleReq(h: nat, subId: string, fs: seq<Filter>)
      requires h in sessions
      modifies this
      ensures View() == Next(old(View()), Req(h, subId, fs))
    {
      if fs == [] {
        Send(h, Notice);
        return;
      }
      AddSub(h, subId, fs);
      SendAnswers(h, subId, fs);
      ToAppends(h, Answers(subId, fs, cache), [Eose(subId)]);
      Send(h, Eose(subId));
    }

    /** One subscription's share of a new event. */
    method Forward(sub: Sub, e: Event)
      modifies this`sent
      ensures sent == old(sent) + Copies(sub, sub.filters, e)
    {
      for j := 0 to |sub.filters|
        invariant sent == old(sent) + Copies(sub, sub.filters[..j], e)
      {
        assert sub.filters[..j + 1][..j] == sub.filters[..j];
        if MatchFilter(e, sub.filters[j]) {
          Send(sub.owner, EventMsg(sub.subId, e));
        }
      }
      assert sub.filters[..|sub.filters|] == sub.filters;
    }

    /** Every subscription, in the order of the map. */
    method ForwardToAll(e: Event)
      requires forall u :: u in order ==> u in table
      modifies this`sent
      ensures sent == old(sent) + Forwards(order, table, e)
    {
      for i := 0 to |order|
        invariant sent == old(sent) + Forwards(order[..i], table, e)
      {
        assert order[..i + 1][..i] == order[..i];
        Forward(table[order[i]], e);
      }
      assert order[..|order|] == order;
    }

    /** EVENT: acknowledge, store unless ephemeral, forward. */
    method HandleEvent(h: nat, e: Event, genuine: bool)
      requires h in sessions && Consistent(View().subs)
      modifies this`cache, this`sent
      ensures View() == Next(old(View()), Publish(h, e, genuine))
    {
      Send(h, OkMsg(e.id, genuine));
      if genuine {
        if e.kind < 20000 || e.kind >= 30000 {
          cache := StableSort(Before, cache + [e]);
        }
        ForwardToAll(e);
      }
    }

    /** The loop of _cleanup: remSub for every name the session lists. */
    method RemoveAllSubs(h: nat)
      requires h in sessions
      modifies this`order, this`table, this`sessions
      ensures order == Without(old(order), Uids(old(sessions)[h]))
      ensures table == old(table) - Uids(old(sessions)[h])
      ensures sessions == old(sessions)[h := old(sessions)[h].(subs := {})]
    {
      ghost var was := sessions[h];
      ghost var gone: set<string> := {};
      WithoutNothing(order);
      assert Uids(was.(subs := gone)) == {};
      while sessions[h].subs != {}
        invariant h in sessions && sessions == old(sessions)[h := was.(subs := sessions[h].subs)]
        invariant sessions[h].subs == was.subs - gone && gone <= was.subs
        invariant order == Without(old(order), Uids(was.(subs := gone)))
        invariant table == old(table) - Uids(was.(subs := gone))
        decreases sessions[h].subs
      {
        var x :| x in sessions[h].subs;
        WithoutTwice(old(order), Uids(was.(subs := gone)), {Uid(was.sid, x)});
        assert Uids(was.(subs := gone + {x})) == Uids(was.(subs := gone)) + {Uid(was.sid, x)};
        RemoveSub(h, x);
        gone := gone + {x};
      }
      assert gone == was.subs;
    }

    /** Disconnect: every subscription the session lists is removed, then the session. */
    method CleanupSession(h: nat)
      requires h in sessions
      modifies this
      ensures View() == Next(old(View()), Disconnect(h))
    {
      RemoveAllSubs(h);
      sessions := sessions - {h};
      assert sessions == old(sessions) - {h};
      conn := conn - 1;
    }

    method PurgeCache()
      modifies this`cache
      ensures View() == Next(old(View()), Purge)
    {
      cache := [];
    }
  }
}
