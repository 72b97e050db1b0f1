/** Discovery namespaces and the page scan: which content ids belong to a group, and when a
    scan may report ids as missing. */
module Discovery {
  import opened Jobs
  import opened Encoding

  // ---- namespaces ----

  predicate AllDigits(s: string) {
    forall i :: 0 <= i < |s| ==> '0' <= s[i] <= '9'
  }

  function Digits(n: nat): (s: string)
    ensures s != [] && AllDigits(s)
  {
    var last := ('0' as int + n % 10) as char;
    if n < 10 then [last] else Digits(n / 10) + [last]
  }

  function DigitsValue(s: string): nat
    requires AllDigits(s)
  {
    if s == [] then 0
    else DigitsValue(s[..|s| - 1]) * 10 + (s[|s| - 1] as int - '0' as int)
  }

  lemma {:induction false} DigitsRoundTrip(n: nat)
    ensures DigitsValue(Digits(n)) == n
  {
    var s := Digits(n);
    if n < 10 {
      assert s[..0] == [];
    } else {
      DigitsRoundTrip(n / 10);
      assert s[..|s| - 1] == Digits(n / 10);
    }
  }

  /** The group prefix: the key, preceded by its length and a colon. */
  function PrefixOf(key: string): string {
    Digits(|key|) + ":" + key
  }

  /** The length in front makes the border between key and id recoverable. */
  lemma PrefixesDoNotNest(k1: string, k2: string, rest: string)
    requires PrefixOf(k1) <= PrefixOf(k2) + rest
    ensures k1 == k2
  {
    var d1, d2 := Digits(|k1|), Digits(|k2|);
    var s := PrefixOf(k2) + rest;
    assert forall i :: 0 <= i < |d1| ==> s[i] == d1[i];
    assert forall i :: 0 <= i < |d2| ==> s[i] == d2[i];
    assert s[|d1|] == PrefixOf(k1)[|d1|] == ':' && s[|d2|] == ':';
    assert |d1| == |d2|;
    assert d1 == d2;
    DigitsRoundTrip(|k1|);
    DigitsRoundTrip(|k2|);
    assert k1 == PrefixOf(k1)[|d1| + 1..] && k2 == s[|d2| + 1..|d2| + 1 + |k2|];
  }

  /** Different (key, id) pairs never give the same namespaced id. */
  lemma NamespaceInjective(k1: string, c1: string, k2: string, c2: string)
    requires PrefixOf(k1) + c1 == PrefixOf(k2) + c2
    ensures k1 == k2 && c1 == c2
  {
    PrefixesDoNotNest(k1, k2, c2);
    assert c1 == (PrefixOf(k1) + c1)[|PrefixOf(k1)|..] && c2 == (PrefixOf(k2) + c2)[|PrefixOf(k2)|..];
  }

  // ---- the group filter ----

  const MAX_LEN := 120

  /** The text before the first marker. */
  function HeadOf(s: string): (head: string)
    ensures head <= s
  {
    if MARKER <= s then ""
    else if s == [] then []
    else [s[0]] + HeadOf(s[1..])
  }

  predicate InGroup(content: string, groupPrefix: string) {
    groupPrefix <= content || (|HeadOf(content)| < |content| && HeadOf(content) <= groupPrefix)
  }

  lemma HeadOfWhole(s: string)
    requires WellEscaped(s)
    ensures HeadOf(s) == s
  {
    if s != [] {
      assert MARKER[0] == '%' && MARKER[1] == '_' && !IsHex('_');
      assert s[0] == '%' ==> IsHex(s[1]);
      assert [s[0]] + s[1..] == s;
      assert WellEscaped(s[1..]) by {
        assert forall i :: 0 <= i < |s[1..]| ==> s[1..][i] == s[i + 1];
      }
      HeadOfWhole(s[1..]);
    }
  }

  lemma HeadOfShortened(head: string, rest: string)
    requires WellEscaped(head)
    ensures HeadOf(head + MARKER + rest) == head
  {
    var s := head + MARKER + rest;
    if head == [] {
      assert s[..2] == MARKER;
    } else {
      assert s[0] == head[0] && (|head| > 1 ==> s[1] == head[1]);
      assert WellEscaped(head[1..]) by {
        assert forall i :: 0 <= i < |head[1..]| ==> head[1..][i] == head[i + 1];
      }
      HeadOfShortened(head[1..], rest);
      assert s[1..] == head[1..] + MARKER + rest;
    }
  }

  /** The id a scan derives for an item of a group; it always fits. */
  function ContentId(prefix: string, cid: string, digest: string -> Digest): string
    requires cid != []
  {
    var r := EncodeContentId(Some(prefix + cid), MAX_LEN, digest);
    if r.Id? then r.text else ""
  }

  lemma ContentIdForm(prefix: string, cid: string, digest: string -> Digest)
    requires cid != []
    ensures var escaped := Encode(prefix + cid, IsClean);
      ContentId(prefix, cid, digest) ==
        if |escaped| <= MAX_LEN then escaped else KeptHead(escaped, MAX_LEN) + MARKER + digest(prefix + cid)
    ensures EncodeContentId(Some(prefix + cid), MAX_LEN, digest).Id?
  {
    ContentIdIsIdentifier(Some(prefix + cid), MAX_LEN, digest);
  }

  function GroupPrefix(prefix: string): string { Encode(prefix, IsClean) }

  /** Every id of the group passes the group's filter, shortened or not. */
  lemma OwnIdsAccepted(prefix: string, cid: string, digest: string -> Digest)
    requires cid != []
    ensures InGroup(ContentId(prefix, cid, digest), GroupPrefix(prefix))
  {
    var escaped := Encode(prefix + cid, IsClean);
    ContentIdForm(prefix, cid, digest);
    EncodeAppend(prefix, cid, IsClean);
    if |escaped| > MAX_LEN {
      EncodeWellEscaped(prefix + cid, IsClean);
      TrimLeavesWholeEscapes(escaped, MAX_LEN - FIXED_LENGTH);
      var head := KeptHead(escaped, MAX_LEN);
      HeadOfShortened(head, digest(prefix + cid));
      PrefixesOfOne(head, GroupPrefix(prefix), escaped);
    }
  }

  /** Two prefixes of one string: the shorter starts the longer. */
  lemma PrefixesOfOne(a: string, b: string, s: string)
    requires a <= s && b <= s
    ensures a <= b || b <= a
  {
    if |a| <= |b| {
      assert a == s[..|a|] == b[..|a|];
    } else {
      assert b == s[..|b|] == a[..|b|];
    }
  }

  /** No unshortened id of another group passes. */
  lemma ForeignIdsRejected(key: string, other: string, cid: string, digest: string -> Digest)
    requires key != other && cid != []
    requires |Encode(PrefixOf(other) + cid, IsClean)| <= MAX_LEN
    ensures !InGroup(ContentId(PrefixOf(other), cid, digest), GroupPrefix(PrefixOf(key)))
  {
    var escaped := Encode(PrefixOf(other) + cid, IsClean);
    ContentIdForm(PrefixOf(other), cid, digest);
    EncodeWellEscaped(PrefixOf(other) + cid, IsClean);
    HeadOfWhole(escaped);
    PrefixCode(PrefixOf(key), PrefixOf(other) + cid, IsClean);
    if PrefixOf(key) <= PrefixOf(other) + cid {
      PrefixesDoNotNest(key, other, cid);
    }
  }

  /** A shortened id of another group passes if and only if what was kept of it starts the group
      prefix. */
  lemma ForeignShortenedPasses(key: string, other: string, cid: string, digest: string -> Digest)
    requires key != other && cid != []
    requires |Encode(PrefixOf(other) + cid, IsClean)| > MAX_LEN
    ensures InGroup(ContentId(PrefixOf(other), cid, digest), GroupPrefix(PrefixOf(key))) <==>
      KeptHead(Encode(PrefixOf(other) + cid, IsClean), MAX_LEN) <= GroupPrefix(PrefixOf(key))
  {
    var text := PrefixOf(other) + cid;
    var escaped, group := Encode(text, IsClean), GroupPrefix(PrefixOf(key));
    var head := KeptHead(escaped, MAX_LEN);
    ContentIdForm(PrefixOf(other), cid, digest);
    EncodeWellEscaped(text, IsClean);
    EncodeWellEscaped(PrefixOf(key), IsClean);
    TrimLeavesWholeEscapes(escaped, MAX_LEN - FIXED_LENGTH);
    HeadOfShortened(head, digest(text));
    if group <= head + MARKER + digest(text) {
      EndsBeforeMarker(group, head, digest(text));
      assert group <= escaped;
      PrefixCode(PrefixOf(key), text, IsClean);
      PrefixesDoNotNest(key, other, cid);
    }
  }

  /** A well-escaped prefix of a shortened id ends before the marker. */
  lemma EndsBeforeMarker(group: string, head: string, rest: string)
    requires WellEscaped(group) && group <= head + MARKER + rest
    ensures group <= head
  {
    var s := head + MARKER + rest;
    assert s[|head|] == '%' && s[|head| + 1] == '_' && !IsHex('_');
    assert forall i :: 0 <= i < |group| ==> group[i] == s[i];
    assert |group| <= |head|;
    assert group == s[..|group|] == head[..|group|];
  }

  // ---- the scan ----

  datatype Mode = Incremental | Full

  /** What fetching a page gives: items, each with the id its extractor returned (none when it
      raised or returned no string), or an exception that ends the scan. */
  datatype Fetched = Items(ids: seq<Option<string>>) | Raises

  predicate Usable(id: Option<string>) { id.Some? && id.value != [] }

  ghost predicate Intact(ids: seq<Option<string>>) {
    forall i :: 0 <= i < |ids| ==> Usable(ids[i])
  }

  /** The content ids a page produces, in order. */
  function PageIds(ids: seq<Option<string>>, prefix: string, digest: string -> Digest): seq<string> {
    if ids == [] then []
    else
      var front, last := PageIds(ids[..|ids| - 1], prefix, digest), ids[|ids| - 1];
      if Usable(last) then front + [ContentId(prefix, last.value, digest)] else front
  }

  /** Item `i` is usable, and `id` is its content id. */
  ghost predicate GivesId(ids: seq<Option<string>>, prefix: string, digest: string -> Digest, i: int, id: string) {
    0 <= i < |ids| && ids[i].Some? && ids[i].value != [] && id == ContentId(prefix, ids[i].value, digest)
  }

  /** A page produces the ids of its usable items, in their order. */
  lemma {:induction false} PageIdsMean(ids: seq<Option<string>>, prefix: string, digest: string -> Digest)
    returns (positions: seq<nat>)
    ensures |PageIds(ids, prefix, digest)| == |positions|
    ensures forall k :: 0 <= k < |positions| ==>
      GivesId(ids, prefix, digest, positions[k], PageIds(ids, prefix, digest)[k])
    ensures forall j, k :: 0 <= j < k < |positions| ==> positions[j] < positions[k]
    ensures forall i :: 0 <= i < |ids| && ids[i].Some? && ids[i].value != [] ==> i in positions
  {
    if ids == [] {
      positions := [];
    } else {
      var front, last := ids[..|ids| - 1], ids[|ids| - 1];
      positions := PageIdsMean(front, prefix, digest);
      GivesMore(ids, prefix, digest);
      if last.Some? && last.value != [] {
        positions := positions + [|front|];
      }
    }
  }

  lemma GivesMore(ids: seq<Option<string>>, prefix: string, digest: string -> Digest)
    requires ids != []
    ensures forall i, id :: GivesId(ids[..|ids| - 1], prefix, digest, i, id) ==> GivesId(ids, prefix, digest, i, id)
  {
  }

  /** Page `n` was fetched and produced `id`. */
  ghost predicate Produced(fetch: nat -> Fetched, prefix: string, digest: string -> Digest, n: nat, id: string) {
    fetch(n).Items? && id in PageIds(fetch(n).ids, prefix, digest)
  }

  ghost predicate AllIntact(fetch: nat -> Fetched, last: nat) {
    forall n :: 1 <= n <= last ==> fetch(n).Items? && Intact(fetch(n).ids)
  }

  /** `seen` holds what pages 1 to `last` produced. */
  ghost predicate Gathered(fetch: nat -> Fetched, prefix: string, digest: string -> Digest, last: nat,
                           seen: set<string>)
  {
    forall id :: id in seen <==> exists n :: 1 <= n <= last && Produced(fetch, prefix, digest, n, id)
  }

  class DiscoveryHandler {
    const taskPrefix: string
    const digest: string -> Digest

    constructor (p: string, d: string -> Digest)
      ensures taskPrefix == p && digest == d
    {
      taskPrefix, digest := p, d;
    }

    /** The usable items of one page; whether all of them were; in a full scan their ids are
        added to `seen0`. */
    method CollectPageEntries(ids: seq<Option<string>>, prefix: string, mode: Mode, seen0: set<string>)
      returns (entries: seq<string>, intact: bool, seen: set<string>)
      ensures entries == PageIds(ids, prefix, digest) && (intact <==> Intact(ids))
      ensures seen == if mode.Full? then seen0 + set id | id in entries else seen0
    {
      entries, intact, seen := [], true, seen0;
      for i := 0 to |ids|
        invariant entries == PageIds(ids[..i], prefix, digest) && (intact <==> Intact(ids[..i]))
        invariant seen == if mode.Full? then seen0 + set id | id in entries else seen0
      {
        assert ids[..i + 1][..i] == ids[..i];
        assert ids[..i + 1][i] == ids[i];
        if ids[i].None? || ids[i].value == [] {
          intact := false;
          assert !Usable(ids[..i + 1][i]);
        } else {
          assert Intact(ids[..i + 1]) <==> Intact(ids[..i]) by {
            assert forall k :: 0 <= k < i ==> ids[..i + 1][k] == ids[..i][k];
          }
          var id := ContentId(prefix, ids[i].value, digest);
          assert (set x | x in entries + [id]) == (set x | x in entries) + {id};
          entries := entries + [id];
          if mode.Full? {
            seen := seen + {id};
          }
        }
      }
      assert ids[..|ids|] == ids;
    }

    /** Page by page until an empty page, the page limit, a page without a usable item, or, in
        an incremental scan, a page of known items. `None` when fetching raised. In a full scan
        `completed` means: the next page was empty and every item of every page was usable. */
    method ScanPages(fetch: nat -> Fetched, prefix: string, mode: Mode, maxPages: nat, known: string -> bool)
      returns (r: Option<(set<string>, bool)>, last: nat)
      ensures last <= maxPages && ReadUpTo(fetch, prefix, mode, known, last)
      ensures r.None? ==> last < maxPages && fetch(last + 1) == Raises
      ensures r.Some? ==> last == maxPages || fetch(last + 1) == Items([]) || Halts(fetch, prefix, mode, known, last)
      ensures r.Some? && mode.Incremental? ==> r.value.0 == {}
      ensures r.Some? && mode.Full? ==> Gathered(fetch, prefix, digest, last, r.value.0)
      ensures r.Some? && mode.Full? ==>
        (r.value.1 <==> last < maxPages && fetch(last + 1) == Items([]) && AllIntact(fetch, last))
    {
      var seen: set<string>, completed := {}, true;
      last := 0;
      for page := 1 to maxPages + 1
        invariant last == page - 1 && ReadUpTo(fetch, prefix, mode, known, last)
        invariant forall n :: 1 <= n <= last ==> !Halts(fetch, prefix, mode, known, n)
        invariant completed <==> AllIntact(fetch, last)
        invariant if mode.Full? then Gathered(fetch, prefix, digest, last, seen) else seen == {}
      {
        var fetched := fetch(page);
        if fetched.Raises? {
          return None, last;
        }
        if fetched.ids == [] {
          return Some((seen, completed)), last;
        }
        var stop;
        seen, completed, stop := ScanPage(fetch, fetched.ids, page, prefix, mode, known, seen, completed);
        last := page;
        if stop {
          return Some((seen, completed)), last;
        }
      }
      r := Some((seen, false));
    }

    /** One page with items. */
    method ScanPage(ghost fetch: nat -> Fetched, ids: seq<Option<string>>, ghost page: nat, prefix: string, mode: Mode,
                    known: string -> bool, seen0: set<string>, completed0: bool)
      returns (seen: set<string>, completed: bool, stop: bool)
      requires page >= 1 && fetch(page) == Items(ids) && ids != [] && (completed0 <==> AllIntact(fetch, page - 1))
      requires if mode.Full? then Gathered(fetch, prefix, digest, page - 1, seen0) else seen0 == {}
      ensures completed <==> AllIntact(fetch, page)
      ensures if mode.Full? then Gathered(fetch, prefix, digest, page, seen) else seen == {}
      ensures stop <==> Halts(fetch, prefix, mode, known, page)
      ensures PageIds(ids, prefix, digest) == [] ==> !completed
    {
      var entries, intact;
      entries, intact, seen := CollectPageEntries(ids, prefix, mode, seen0);
      if mode.Full? {
        GatherOne(fetch, prefix, digest, page - 1, seen0, seen);
      }
      completed := completed0 && intact;
      if entries == [] {
        NoEntriesMeansBroken(ids, prefix, digest);
        stop := true;
      } else {
        stop := mode.Incremental? && forall id :: id in entries ==> known(id);
      }
    }

    /** The scan stops after page `n`: nothing on it was usable, or nothing new. */
    ghost predicate Halts(fetch: nat -> Fetched, prefix: string, mode: Mode, known: string -> bool, n: nat) {
      n >= 1 && fetch(n).Items? &&
      var ids := PageIds(fetch(n).ids, prefix, digest);
      ids == [] || (mode.Incremental? && forall id :: id in ids ==> known(id))
    }

    /** Pages 1 to `last` had items, and none before the last stopped the scan. */
    ghost predicate ReadUpTo(fetch: nat -> Fetched, prefix: string, mode: Mode, known: string -> bool, last: nat) {
      forall n :: 1 <= n <= last ==>
        fetch(n).Items? && fetch(n).ids != [] && (n < last ==> !Halts(fetch, prefix, mode, known, n))
    }

    /** The archived ids of the group that the scan did not see. `archive` holds the uids with a
        success or failure record. */
    method ReportMissing(archive: set<string>, prefix: string, seen: set<string>) returns (missing: set<string>)
      ensures forall id :: id in missing <==>
        taskPrefix + id in archive && (prefix == [] || InGroup(id, GroupPrefix(prefix))) && id !in seen
    {
      var group := if prefix == [] then [] else GroupPrefix(prefix);
      EmptyGroup(prefix);
      var known: set<string> := {};
      var todo := archive;
      while todo != {}
        invariant todo <= archive
        invariant forall id :: id in known <==>
          taskPrefix + id in archive - todo && (prefix == [] || InGroup(id, GroupPrefix(prefix)))
      {
        var uid :| uid in todo;
        todo := todo - {uid};
        if taskPrefix <= uid {
          var part := uid[|taskPrefix|..];
          assert taskPrefix + part == uid;
          if group == [] || InGroup(part, group) {
            known := known + {part};
          }
        }
      }
      missing := known - seen;
    }

    /** The whole handler run: what is reported missing, if anything is reported. */
    method Run(fetch: nat -> Fetched, prefix: string, mode: Mode, maxPages: nat, known: string -> bool,
               archive: set<string>)
      returns (missing: Option<set<string>>, last: nat)
      ensures last <= maxPages && ReadUpTo(fetch, prefix, mode, known, last)
      ensures missing.Some? <==> mode.Full? && last < maxPages && fetch(last + 1) == Items([]) && AllIntact(fetch, last)
      ensures missing.Some? ==> forall id :: id in missing.value <==>
        taskPrefix + id in archive && (prefix == [] || InGroup(id, GroupPrefix(prefix))) &&
        !exists n :: 1 <= n <= last && Produced(fetch, prefix, digest, n, id)
    {
      var r;
      r, last := ScanPages(fetch, prefix, mode, maxPages, known);
      if r.None? || mode.Incremental? || !r.value.1 {
        return None, last;
      }
      var ids := ReportMissing(archive, prefix, r.value.0);
      missing := Some(ids);
    }
  }

  lemma EmptyGroup(prefix: string)
    ensures GroupPrefix(prefix) == [] <==> prefix == []
  {
  }

  lemma GatherOne(fetch: nat -> Fetched, prefix: string, digest: string -> Digest, last: nat, seen: set<string>,
                  seen': set<string>)
    requires Gathered(fetch, prefix, digest, last, seen) && fetch(last + 1).Items?
    requires forall id :: id in seen' <==> id in seen || id in PageIds(fetch(last + 1).ids, prefix, digest)
    ensures Gathered(fetch, prefix, digest, last + 1, seen')
  {
    forall id ensures id in seen' <==> exists n :: 1 <= n <= last + 1 && Produced(fetch, prefix, digest, n, id) {
      if id in seen {
        var n :| 1 <= n <= last && Produced(fetch, prefix, digest, n, id);
      }
      if id in PageIds(fetch(last + 1).ids, prefix, digest) {
        assert Produced(fetch, prefix, digest, last + 1, id);
      }
      if n :| 1 <= n <= last + 1 && Produced(fetch, prefix, digest, n, id) {
        assert n <= last ==> id in seen;
      }
    }
  }

  lemma NoEntriesMeansBroken(ids: seq<Option<string>>, prefix: string, digest: string -> Digest)
    requires ids != [] && PageIds(ids, prefix, digest) == []
    ensures !Intact(ids)
  {
    assert !Usable(ids[|ids| - 1]);
  }

  /** End to end: an item the group archived earlier is reported by a completed scan exactly when
      no page of that scan produced its id. */
  lemma ArchivedItemIsReported(handler: DiscoveryHandler, fetch: nat -> Fetched, key: string, cid: string,
                               archive: set<string>, last: nat, missing: set<string>)
    requires cid != [] && handler.taskPrefix + ContentId(PrefixOf(key), cid, handler.digest) in archive
    requires forall id :: id in missing <==>
      handler.taskPrefix + id in archive && InGroup(id, GroupPrefix(PrefixOf(key))) &&
      !exists n :: 1 <= n <= last && Produced(fetch, PrefixOf(key), handler.digest, n, id)
    ensures ContentId(PrefixOf(key), cid, handler.digest) in missing <==>
      !exists n :: 1 <= n <= last &&
        Produced(fetch, PrefixOf(key), handler.digest, n, ContentId(PrefixOf(key), cid, handler.digest))
  {
    OwnIdsAccepted(PrefixOf(key), cid, handler.digest);
  }
}
