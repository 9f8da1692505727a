/** The newest messages over several searches and mailboxes
    (packages/mail-service/src/imap-client.ts, lines 121 to 126, 244 to 278, 295 to 335 and 366 to 383).

    The mail server is a parameter: what each search finds, each message's header, and the order in which a
    fetch answers. Subject, addresses and preview are not part of this model. */
module NewestMail {
  import opened Common

  const PREPASS_MAX_UIDS := 10000

  datatype Query = Query(everything: bool, id: int)

  datatype Job = Job(query: Query, box: string)

  datatype Header = Header(messageId: string, date: Option<int>)

  datatype Server = Server(
    find: Job -> seq<nat>,
    size: Job -> Option<nat>,
    header: (string, nat) -> Header,
    answer: (string, seq<nat>) -> seq<nat>,
    now: int)

  datatype Summary = Summary(box: string, uid: nat, messageId: string, date: int)

  // ----- Array.prototype.sort is stable, and slice counts from the end.

  function Insert<T>(x: T, s: seq<T>, key: T -> int): seq<T> {
    if s == [] then [x]
    else if key(x) <= key(s[0]) then [x] + s
    else [s[0]] + Insert(x, s[1..], key)
  }

  function SortBy<T>(s: seq<T>, key: T -> int): seq<T> {
    if s == [] then [] else Insert(s[0], SortBy(s[1..], key), key)
  }

  ghost predicate Sorted<T>(s: seq<T>, key: T -> int) {
    forall i, j | 0 <= i < j < |s| :: key(s[i]) <= key(s[j])
  }

  lemma {:induction false} InsertAdds<T>(x: T, s: seq<T>, key: T -> int)
    ensures multiset(Insert(x, s, key)) == multiset(s) + multiset{x}
  {
    if s != [] && key(s[0]) < key(x) {
      InsertAdds(x, s[1..], key);
      assert s == [s[0]] + s[1..];
    }
  }

  lemma {:induction false} InsertKeepsOrder<T>(x: T, s: seq<T>, key: T -> int)
    requires Sorted(s, key)
    ensures Sorted(Insert(x, s, key), key)
  {
    if s != [] && key(s[0]) < key(x) {
      InsertKeepsOrder(x, s[1..], key);
      InsertAdds(x, s[1..], key);
      var r := Insert(x, s[1..], key);
      forall j | 0 <= j < |r| ensures key(s[0]) <= key(r[j]) {
        FirstIsLeast(x, s, key, r, r[j]);
      }
      SortedCons(s[0], r, key);
    }
  }

  lemma FirstIsLeast<T>(x: T, s: seq<T>, key: T -> int, r: seq<T>, y: T)
    requires s != [] && Sorted(s, key) && key(s[0]) < key(x)
    requires multiset(r) == multiset(s[1..]) + multiset{x} && y in r
    ensures key(s[0]) <= key(y)
  {
    assert y in multiset(r);
    if y in s[1..] {
      var i :| 0 <= i < |s[1..]| && s[1..][i] == y;
      assert s[i + 1] == y;
    }
  }

  lemma SortedCons<T>(x: T, r: seq<T>, key: T -> int)
    requires Sorted(r, key) && forall j | 0 <= j < |r| :: key(x) <= key(r[j])
    ensures Sorted([x] + r, key)
  {
  }

  lemma {:induction false} SortByIsSort<T>(s: seq<T>, key: T -> int)
    ensures Sorted(SortBy(s, key), key)
    ensures multiset(SortBy(s, key)) == multiset(s)
    ensures |SortBy(s, key)| == |s|
  {
    if s != [] {
      SortByIsSort(s[1..], key);
      InsertKeepsOrder(s[0], SortBy(s[1..], key), key);
      InsertAdds(s[0], SortBy(s[1..], key), key);
      ConsMultiset(s);
    }
    SameMultisetSameLength(SortBy(s, key), s);
  }

  lemma ConsMultiset<T>(s: seq<T>)
    requires s != []
    ensures multiset(s) == multiset(s[1..]) + multiset{s[0]}
  {
    assert s == [s[0]] + s[1..];
  }

  lemma SameMultisetSameLength<T>(s: seq<T>, t: seq<T>)
    requires multiset(s) == multiset(t)
    ensures |s| == |t|
  {
    assert |multiset(s)| == |s| && |multiset(t)| == |t|;
  }

  /** `s.slice(-limit)`, which for limit 0 is all of s. */
  function Tail<T>(s: seq<T>, limit: nat): seq<T> {
    if limit == 0 || |s| <= limit then s else s[|s| - limit..]
  }

  // ----- Picking the newest of one search.

  function Time(w: Server, box: string): nat -> int {
    (uid: nat) => var d := w.header(box, uid).date; if d.Some? then d.value else 0
  }

  function ByUid(): nat -> int {
    (uid: nat) => uid
  }

  /** What `selectNewestUids` picks, lines 295 to 318. */
  function Picked(w: Server, box: string, uids: seq<nat>, limit: nat): seq<nat> {
    if |uids| <= limit then uids
    else if |uids| > PREPASS_MAX_UIDS then Tail(uids, limit)
    else
      var answered := w.answer(box, uids);
      if answered == [] then Tail(uids, limit)
      else SortBy(Tail(SortBy(answered, Time(w, box)), limit), ByUid())
  }

  datatype Dated = Dated(uid: nat, time: int)

  function Uids(s: seq<Dated>): seq<nat> {
    if s == [] then [] else [s[0].uid] + Uids(s[1..])
  }

  function TimeOf(): Dated -> int {
    (d: Dated) => d.time
  }

  lemma {:induction false} InsertDated(x: Dated, s: seq<Dated>, time: nat -> int)
    requires x.time == time(x.uid) && forall d | d in s :: d.time == time(d.uid)
    ensures Uids(Insert(x, s, TimeOf())) == Insert(x.uid, Uids(s), time)
    ensures forall d | d in Insert(x, s, TimeOf()) :: d == x || d in s
  {
    if s != [] {
      InsertDated(x, s[1..], time);
      if x.time <= s[0].time {
        assert ([x] + s)[1..] == s;
      } else {
        var r := Insert(x, s[1..], TimeOf());
        assert ([s[0]] + r)[1..] == r;
      }
    }
  }

  /** Sorting the dated pairs sorts their uids. */
  lemma {:induction false} SortDated(s: seq<Dated>, time: nat -> int)
    requires forall d | d in s :: d.time == time(d.uid)
    ensures Uids(SortBy(s, TimeOf())) == SortBy(Uids(s), time)
    ensures forall d | d in SortBy(s, TimeOf()) :: d in s
  {
    if s != [] {
      SortDated(s[1..], time);
      InsertDated(s[0], SortBy(s[1..], TimeOf()), time);
      assert Uids(s)[1..] == Uids(s[1..]);
    }
  }

  lemma {:induction false} UidsAt(s: seq<Dated>)
    ensures |Uids(s)| == |s| && forall i | 0 <= i < |s| :: Uids(s)[i] == s[i].uid
  {
    if s != [] {
      UidsAt(s[1..]);
    }
  }

  lemma UidsOfTail(s: seq<Dated>, limit: nat)
    ensures Uids(Tail(s, limit)) == Tail(Uids(s), limit)
  {
    UidsAt(s);
    UidsAt(Tail(s, limit));
  }

  lemma UidsSnoc(s: seq<Dated>, d: Dated)
    ensures Uids(s + [d]) == Uids(s) + [d.uid]
  {
    UidsAt(s);
    UidsAt(s + [d]);
  }

  /** `selectNewestUids`, lines 295 to 318: the envelope pre-pass fills a list of dated uids, which is sorted and cut. */
  method SelectNewestUids(w: Server, box: string, uids: seq<nat>, limit: nat) returns (r: seq<nat>)
    ensures r == Picked(w, box, uids, limit)
  {
    if |uids| <= limit { return uids; }
    if |uids| > PREPASS_MAX_UIDS { return Tail(uids, limit); }
    var answered := w.answer(box, uids);
    var dated: seq<Dated> := [];
    for i := 0 to |answered|
      invariant Uids(dated) == answered[..i] && |dated| == i
      invariant forall d | d in dated :: d.time == Time(w, box)(d.uid)
    {
      var date := w.header(box, answered[i]).date;
      var d := Dated(answered[i], if date.Some? then date.value else 0);
      UidsSnoc(dated, d);
      dated := dated + [d];
    }
    assert answered[..|answered|] == answered;
    if dated == [] { return Tail(uids, limit); }
    SortDated(dated, Time(w, box));
    var newest := Tail(SortBy(dated, TimeOf()), limit);
    UidsOfTail(SortBy(dated, TimeOf()), limit);
    r := SortBy(Uids(newest), ByUid());
  }

  ghost predicate NoRepeats(uids: seq<nat>) {
    forall i, j | 0 <= i < j < |uids| :: uids[i] != uids[j]
  }

  lemma {:induction false} NoRepeatsCounted(uids: seq<nat>, u: nat)
    requires NoRepeats(uids)
    ensures multiset(uids)[u] <= 1
  {
    if uids != [] {
      NoRepeatsCounted(uids[1..], u);
      assert uids == [uids[0]] + uids[1..];
      assert forall k | 0 <= k < |uids[1..]| :: uids[1..][k] == uids[k + 1];
      assert uids[0] !in uids[1..];
    }
  }

  /** Picked from more than the limit: exactly that many, none twice, and none left behind is newer. */
  lemma PickedAreNewest(w: Server, box: string, uids: seq<nat>, limit: nat)
    requires 1 <= limit < |uids| <= 10000
    requires multiset(w.answer(box, uids)) == multiset(uids)
    ensures |Picked(w, box, uids, limit)| == limit
    ensures multiset(Picked(w, box, uids, limit)) <= multiset(uids)
    ensures Sorted(Picked(w, box, uids, limit), ByUid())
    ensures forall u, v | u in uids && u !in Picked(w, box, uids, limit) && v in Picked(w, box, uids, limit) ::
      Time(w, box)(u) <= Time(w, box)(v)
  {
    var answered := w.answer(box, uids);
    SameMultisetSameLength(answered, uids);
    var s := SortBy(answered, Time(w, box));
    SortByIsSort(answered, Time(w, box));
    var n := |s| - limit;
    assert s == s[..n] + s[n..];
    var newest := s[n..];
    var picked := SortBy(newest, ByUid());
    assert picked == Picked(w, box, uids, limit);
    SortByIsSort(newest, ByUid());
    forall u, v | u in uids && u !in picked && v in picked ensures Time(w, box)(u) <= Time(w, box)(v) {
      SameMembers(uids, s, u);
      SameMembers(picked, newest, u);
      SameMembers(picked, newest, v);
      TailIsGreater(s, Time(w, box), n, u, v);
    }
  }

  lemma SameMembers(s: seq<nat>, t: seq<nat>, u: nat)
    requires multiset(s) == multiset(t)
    ensures u in s <==> u in t
  {
    assert u in s <==> u in multiset(s);
    assert u in t <==> u in multiset(t);
  }

  lemma TailIsGreater(s: seq<nat>, key: nat -> int, n: nat, u: nat, v: nat)
    requires Sorted(s, key) && n <= |s| && u in s && u !in s[n..] && v in s[n..]
    ensures key(u) <= key(v)
  {
    assert forall k | n <= k < |s| :: s[n..][k - n] == s[k];
    var i :| 0 <= i < |s| && s[i] == u;
    var j :| 0 <= j < |s[n..]| && s[n..][j] == v;
    assert s[n + j] == v && i < n;
  }

  // ----- Exactly what is left out.

  /** How many of s have a key of at least k. */
  function AtLeast(s: seq<nat>, key: nat -> int, k: int): nat {
    if s == [] then 0 else (if key(s[0]) >= k then 1 else 0) + AtLeast(s[1..], key, k)
  }

  /** How many of s sort behind u: those with a greater key, and those with u's key that stand behind u in s. */
  function Behind(s: seq<nat>, key: nat -> int, u: nat): nat {
    if s == [] then 0
    else if s[0] == u then AtLeast(s[1..], key, key(u))
    else (if key(s[0]) > key(u) then 1 else 0) + Behind(s[1..], key, u)
  }

  lemma {:induction false} AtLeastOfInsert(x: nat, s: seq<nat>, key: nat -> int, k: int)
    ensures AtLeast(Insert(x, s, key), key, k) == AtLeast(s, key, k) + if key(x) >= k then 1 else 0
  {
    if s != [] && key(s[0]) < key(x) {
      AtLeastOfInsert(x, s[1..], key, k);
      assert ([s[0]] + Insert(x, s[1..], key))[1..] == Insert(x, s[1..], key);
    } else {
      assert ([x] + s)[1..] == s;
    }
  }

  lemma {:induction false} AtLeastOfSort(s: seq<nat>, key: nat -> int, k: int)
    ensures AtLeast(SortBy(s, key), key, k) == AtLeast(s, key, k)
  {
    if s != [] {
      AtLeastOfSort(s[1..], key, k);
      AtLeastOfInsert(s[0], SortBy(s[1..], key), key, k);
    }
  }

  lemma {:induction false} AllAtLeast(s: seq<nat>, key: nat -> int, k: int)
    requires forall i | 0 <= i < |s| :: key(s[i]) >= k
    ensures AtLeast(s, key, k) == |s|
  {
    if s != [] {
      AllAtLeast(s[1..], key, k);
    }
  }

  /** Where an insertion puts x. */
  lemma {:induction false} InsertPlace(x: nat, s: seq<nat>, key: nat -> int) returns (n: nat)
    requires Sorted(s, key)
    ensures n <= |s| == |Insert(x, s, key)| - 1 && Insert(x, s, key)[n] == x && |s| - n == AtLeast(s, key, key(x))
  {
    if s != [] && key(s[0]) < key(x) {
      n := InsertPlace(x, s[1..], key);
      n := n + 1;
    } else {
      n := 0;
      AllAtLeast(s, key, key(x));
    }
  }

  /** Where an insertion moves what stands at n. */
  lemma {:induction false} InsertMoves(x: nat, s: seq<nat>, key: nat -> int, n: nat)
    requires Sorted(s, key) && n < |s|
    ensures |Insert(x, s, key)| == |s| + 1
    ensures Insert(x, s, key)[if key(x) > key(s[n]) then n else n + 1] == s[n]
  {
    if key(s[0]) < key(x) {
      if n > 0 {
        InsertMoves(x, s[1..], key, n - 1);
      } else {
        var r := InsertPlace(x, s[1..], key);
      }
    }
  }

  /** The stable sort puts as many behind u as sort behind it. */
  lemma {:induction false} RankOf(s: seq<nat>, key: nat -> int, u: nat) returns (n: nat)
    requires u in s
    ensures n < |s| == |SortBy(s, key)| && SortBy(s, key)[n] == u && |s| - 1 - n == Behind(s, key, u)
  {
    var rest := s[1..];
    var sorted := SortBy(rest, key);
    SortByIsSort(rest, key);
    if s[0] == u {
      n := InsertPlace(u, sorted, key);
      AtLeastOfSort(rest, key, key(u));
    } else {
      n := RankOf(rest, key, u);
      InsertMoves(s[0], sorted, key, n);
      n := if key(s[0]) > key(u) then n else n + 1;
    }
  }

  lemma InTailIff(s: seq<nat>, limit: nat, u: nat, n: nat)
    requires 1 <= limit < |s| && n < |s| && s[n] == u && multiset(s)[u] <= 1
    ensures u in Tail(s, limit) <==> |s| - 1 - n < limit
  {
    var cut := |s| - limit;
    assert s == s[..cut] + s[cut..];
    if n >= cut {
      assert s[cut..][n - cut] == u;
    } else {
      assert s[..cut][n] == u;
      assert multiset(s)[u] == multiset(s[..cut])[u] + multiset(s[cut..])[u];
    }
  }

  /** A match of one search is left out exactly when there are more than the limit and at least the limit of them
      sort behind it: by date, an undated message as if sent at time zero, and by the order of the answer. */
  lemma LeftOutIff(w: Server, box: string, uids: seq<nat>, limit: nat, u: nat)
    requires 1 <= limit && |uids| <= 10000 && NoRepeats(uids) && u in uids
    requires multiset(w.answer(box, uids)) == multiset(uids)
    ensures u !in Picked(w, box, uids, limit) <==>
      |uids| > limit && Behind(w.answer(box, uids), Time(w, box), u) >= limit
  {
    if |uids| > limit {
      var answered, time := w.answer(box, uids), Time(w, box);
      SameMultisetSameLength(answered, uids);
      SameMembers(uids, answered, u);
      var n := RankOf(answered, time, u);
      SortByIsSort(answered, time);
      NoRepeatsCounted(uids, u);
      var newest := Tail(SortBy(answered, time), limit);
      InTailIff(SortBy(answered, time), limit, u, n);
      SortByIsSort(newest, ByUid());
      SameMembers(SortBy(newest, ByUid()), newest, u);
    }
  }

  /** Beyond that, or when the server answers nothing, the last uids of the search are picked, whatever their dates. */
  lemma PickedWithoutDates(w: Server, box: string, uids: seq<nat>, limit: nat)
    requires 1 <= limit < |uids| && (|uids| > 10000 || w.answer(box, uids) == [])
    ensures Picked(w, box, uids, limit) == uids[|uids| - limit..]
  {
  }

  // ----- Merging the searches.

  function Key(s: Summary): string {
    if s.messageId != "" then s.messageId else s.box + ":" + Decimal(s.uid)
  }

  /** Two messages with ids share a key exactly if they share the id, two without exactly if they are one message of one
      mailbox; one of each does only if the id reads as the mailbox and the number. */
  lemma KeysMeetIff(s: Summary, t: Summary)
    ensures s.messageId != "" && t.messageId != "" ==> (Key(s) == Key(t) <==> s.messageId == t.messageId)
    ensures s.messageId == "" && t.messageId == "" ==> (Key(s) == Key(t) <==> s.box == t.box && s.uid == t.uid)
    ensures s.messageId != "" && t.messageId == "" ==> (Key(s) == Key(t) <==> s.messageId == t.box + ":" + Decimal(t.uid))
  {
    if s.messageId == "" && t.messageId == "" && Key(s) == Key(t) {
      DecimalReadsBack(s.uid);
      DecimalReadsBack(t.uid);
      SamePlace(s.box, Decimal(s.uid), t.box, Decimal(t.uid));
    }
  }

  lemma SamePlace(p: string, x: string, q: string, y: string)
    requires AllDigits(x) && AllDigits(y) && p + ":" + x == q + ":" + y
    ensures p == q && x == y
  {
    var s := p + ":" + x;
    assert s[|p|] == ':' && s[|q|] == ':';
    assert forall i | |p| < i < |s| :: s[i] == x[i - |p| - 1];
    assert forall i | |q| < i < |s| :: s[i] == y[i - |q| - 1];
    assert |p| == |q|;
    assert p == s[..|p|] && x == s[|p| + 1..];
  }

  /** A summary is of its mailbox, number, id and date; the present stands in for a date that is missing. */
  lemma SummaryIs(w: Server, box: string, uid: nat)
    ensures var s, h := Summarise(w, box, uid), w.header(box, uid);
      s.box == box && s.uid == uid && s.messageId == h.messageId && (h.date == None ==> s.date == w.now) && (h.date != None ==> h.date == Some(s.date))
  {
  }

  function Summarise(w: Server, box: string, uid: nat): Summary {
    var h := w.header(box, uid);
    Summary(box, uid, h.messageId, if h.date.Some? then h.date.value else w.now)
  }

  /** `assertSearchConsistent`, lines 121 to 126: a search for everything that misses what the mailbox holds. */
  predicate Inconsistent(w: Server, job: Job) {
    job.query.everything && w.find(job) == [] && w.size(job).Some? && w.size(job).value > 0
  }

  /** What one search lists, in the order the fetch answers. */
  function Listing(w: Server, job: Job, limit: nat): seq<Summary> {
    var uids := if w.find(job) == [] then [] else w.answer(job.box, Picked(w, job.box, w.find(job), limit));
    seq(|uids|, i requires 0 <= i < |uids| => Summarise(w, job.box, uids[i]))
  }

  predicate HasKey(results: seq<Summary>, key: string) {
    exists i | 0 <= i < |results| :: Key(results[i]) == key
  }

  function Add(results: seq<Summary>, s: Summary): seq<Summary> {
    if HasKey(results, Key(s)) then results else results + [s]
  }

  function AddAll(results: seq<Summary>, more: seq<Summary>): seq<Summary> {
    if more == [] then results else Add(AddAll(results, Init(more)), Last(more))
  }

  /** The merged list before it is sorted. */
  function Merged(w: Server, jobs: seq<Job>, limit: nat): seq<Summary> {
    if jobs == [] then [] else AddAll(Merged(w, Init(jobs), limit), Listing(w, Last(jobs), limit))
  }

  function JobsOf(query: Query, boxes: seq<string>): seq<Job> {
    seq(|boxes|, i requires 0 <= i < |boxes| => Job(query, boxes[i]))
  }

  /** Every query in every mailbox. */
  function Jobs(queries: seq<Query>, boxes: seq<string>): seq<Job> {
    if queries == [] then [] else Jobs(Init(queries), boxes) + JobsOf(Last(queries), boxes)
  }

  function NewestFirst(): Summary -> int {
    (s: Summary) => -s.date
  }

  /** What `searchSummaries` returns. */
  function Returned(w: Server, jobs: seq<Job>, limit: nat): seq<Summary> {
    var sorted := SortBy(Merged(w, jobs, limit), NewestFirst());
    sorted[..Min(limit, |sorted|)]
  }

  /** The uids that any of the jobs found in a mailbox. */
  function Found(w: Server, jobs: seq<Job>, box: string): set<nat> {
    if jobs == [] then {}
    else
      var before := Found(w, Init(jobs), box);
      if Last(jobs).box == box then before + (set u | u in w.find(Last(jobs))) else before
  }

  function LastSize(w: Server, jobs: seq<Job>, box: string): Option<nat> {
    if jobs == [] then None
    else if Last(jobs).box == box && w.size(Last(jobs)).Some? then w.size(Last(jobs))
    else LastSize(w, Init(jobs), box)
  }

  datatype Count = Count(uids: set<nat>, size: Option<nat>)

  ghost predicate Counts(matched: map<string, Count>, w: Server, jobs: seq<Job>) {
    && (forall box :: box in matched <==> exists k | 0 <= k < |jobs| :: jobs[k].box == box)
    && (forall box | box in matched :: matched[box] == Count(Found(w, jobs, box), LastSize(w, jobs, box)))
  }

  ghost predicate KeysOf(seen: set<string>, results: seq<Summary>) {
    forall key :: key in seen <==> HasKey(results, key)
  }

  lemma KeysOfOneMore(seen: set<string>, results: seq<Summary>, s: Summary)
    requires KeysOf(seen, results)
    ensures KeysOf(seen + {Key(s)}, Add(results, s))
  {
    if Key(s) !in seen {
      var more := results + [s];
      forall key ensures HasKey(more, key) <==> HasKey(results, key) || key == Key(s) {
        if HasKey(results, key) {
          var i :| 0 <= i < |results| && Key(results[i]) == key;
          assert Key(more[i]) == key;
        }
        assert more[|results|] == s;
      }
    }
  }

  lemma NotFoundYet(w: Server, jobs: seq<Job>, box: string)
    requires forall k | 0 <= k < |jobs| :: jobs[k].box != box
    ensures Found(w, jobs, box) == {} && LastSize(w, jobs, box) == None
  {
  }

  lemma CountOneMore(matched: map<string, Count>, w: Server, jobs: seq<Job>, job: Job)
    requires Counts(matched, w, jobs)
    ensures var before := if job.box in matched then matched[job.box] else Count({}, None);
      Counts(matched[job.box := Count(before.uids + (set u | u in w.find(job)), if w.size(job).Some? then w.size(job) else before.size)],
             w, jobs + [job])
  {
    var more := jobs + [job];
    assert Init(more) == jobs && Last(more) == job;
    if job.box !in matched { NotFoundYet(w, jobs, job.box); }
    assert more[|jobs|].box == job.box;
    assert forall k | 0 <= k < |jobs| :: more[k] == jobs[k];
  }

  /** One search, lines 255 to 268: its count, then its new messages. */
  method RunJob(w: Server, job: Job, limit: nat, results: seq<Summary>, seen: set<string>, matched: map<string, Count>, ghost done: seq<Job>)
    returns (ok: bool, results': seq<Summary>, seen': set<string>, matched': map<string, Count>)
    requires KeysOf(seen, results) && Counts(matched, w, done)
    ensures ok <==> !Inconsistent(w, job)
    ensures ok ==> results' == AddAll(results, Listing(w, job, limit)) && KeysOf(seen', results') && Counts(matched', w, done + [job])
  {
    var uids := w.find(job);
    results', seen', matched' := results, seen, matched;
    if job.query.everything && uids == [] && w.size(job).Some? && w.size(job).value > 0 { return false, results', seen', matched'; }
    ok := true;
    var entry := if job.box in matched then matched[job.box] else Count({}, None);
    matched' := matched[job.box := Count(entry.uids + (set u | u in uids), if w.size(job).Some? then w.size(job) else entry.size)];
    CountOneMore(matched, w, done, job);
    var answered: seq<nat> := [];
    if uids != [] {
      var recent := SelectNewestUids(w, job.box, uids, limit);
      answered := w.answer(job.box, recent);
    }
    ghost var listing := Listing(w, job, limit);
    for i := 0 to |answered|
      invariant results' == AddAll(results, listing[..i]) && KeysOf(seen', results')
    {
      var s := Summarise(w, job.box, answered[i]);
      assert Init(listing[..i + 1]) == listing[..i] && Last(listing[..i + 1]) == s;
      KeysOfOneMore(seen', results', s);
      if Key(s) !in seen' {
        seen' := seen' + {Key(s)};
        results' := results' + [s];
      }
    }
    assert listing[..|answered|] == listing;
  }

  lemma MergedOneMore(w: Server, jobs: seq<Job>, job: Job, limit: nat)
    ensures Merged(w, jobs + [job], limit) == AddAll(Merged(w, jobs, limit), Listing(w, job, limit))
  {
    assert Init(jobs + [job]) == jobs;
  }

  lemma JobsOfSnoc(query: Query, boxes: seq<string>, j: nat)
    requires j < |boxes|
    ensures JobsOf(query, boxes[..j + 1]) == JobsOf(query, boxes[..j]) + [Job(query, boxes[j])]
  {
  }

  lemma JobsOneMore(queries: seq<Query>, boxes: seq<string>, i: nat, j: nat)
    requires i < |queries| && j < |boxes|
    ensures Jobs(queries[..i], boxes) + JobsOf(queries[i], boxes[..j + 1])
         == Jobs(queries[..i], boxes) + JobsOf(queries[i], boxes[..j]) + [Job(queries[i], boxes[j])]
  {
    JobsOfSnoc(queries[i], boxes, j);
    Associates(Jobs(queries[..i], boxes), JobsOf(queries[i], boxes[..j]), [Job(queries[i], boxes[j])]);
  }

  lemma JobsOneQuery(queries: seq<Query>, boxes: seq<string>, i: nat)
    requires i < |queries|
    ensures Jobs(queries[..i + 1], boxes) == Jobs(queries[..i], boxes) + JobsOf(queries[i], boxes)
  {
    assert Init(queries[..i + 1]) == queries[..i];
  }

  ghost predicate AllConsistent(w: Server, jobs: seq<Job>) {
    forall k | 0 <= k < |jobs| :: !Inconsistent(w, jobs[k])
  }

  datatype Answer = Answer(messages: seq<Summary>, matched: map<string, Count>)

  /** `searchSummaries`, lines 244 to 275. No answer when a search proved inconsistent. */
  method SearchSummaries(w: Server, queries: seq<Query>, boxes: seq<string>, limit: nat) returns (r: Option<Answer>)
    ensures r.None? <==> exists job | job in Jobs(queries, boxes) ::
      job.query.everything && w.find(job) == [] && w.size(job).Some? && w.size(job).value > 0
    ensures r.Some? ==> r.value.messages == Returned(w, Jobs(queries, boxes), limit)
    ensures r.Some? ==> Counts(r.value.matched, w, Jobs(queries, boxes))
  {
    var results: seq<Summary>, seen: set<string>, matched: map<string, Count> := [], {}, map[];
    for i := 0 to |queries|
      invariant results == Merged(w, Jobs(queries[..i], boxes), limit) && KeysOf(seen, results)
      invariant Counts(matched, w, Jobs(queries[..i], boxes)) && AllConsistent(w, Jobs(queries[..i], boxes))
    {
      ghost var done := Jobs(queries[..i], boxes);
      assert done + JobsOf(queries[i], boxes[..0]) == done;
      for j := 0 to |boxes|
        invariant done == Jobs(queries[..i], boxes) + JobsOf(queries[i], boxes[..j])
        invariant results == Merged(w, done, limit) && KeysOf(seen, results)
        invariant Counts(matched, w, done) && AllConsistent(w, done)
      {
        var job := Job(queries[i], boxes[j]);
        var ok, results', seen', matched' := RunJob(w, job, limit, results, seen, matched, done);
        if !ok {
          JobAmong(queries, boxes, i, j);
          assert Inconsistent(w, job);
          return None;
        }
        MergedOneMore(w, done, job, limit);
        JobsOneMore(queries, boxes, i, j);
        done := done + [job];
        results, seen, matched := results', seen', matched';
      }
      assert boxes[..|boxes|] == boxes;
      JobsOneQuery(queries, boxes, i);
    }
    assert queries[..|queries|] == queries;
    results := SortBy(results, NewestFirst());
    AllMeansEach(w, Jobs(queries, boxes));
    r := Some(Answer(results[..Min(limit, |results|)], matched));
  }

  lemma AllMeansEach(w: Server, jobs: seq<Job>)
    requires AllConsistent(w, jobs)
    ensures forall job | job in jobs :: !Inconsistent(w, job)
  {
  }

  /** Every query meets every mailbox. */
  lemma {:induction false} JobAmong(queries: seq<Query>, boxes: seq<string>, i: nat, j: nat)
    requires i < |queries| && j < |boxes|
    ensures Job(queries[i], boxes[j]) in Jobs(queries, boxes)
  {
    if i == |queries| - 1 {
      assert JobsOf(Last(queries), boxes)[j] == Job(queries[i], boxes[j]);
    } else {
      JobAmong(Init(queries), boxes, i, j);
    }
  }

  /** And nothing else is searched for. */
  lemma {:induction false} JobsAre(queries: seq<Query>, boxes: seq<string>, job: Job)
    ensures job in Jobs(queries, boxes) <==> job.query in queries && job.box in boxes
  {
    if job.query in queries && job.box in boxes {
      var i :| 0 <= i < |queries| && queries[i] == job.query;
      var j :| 0 <= j < |boxes| && boxes[j] == job.box;
      JobAmong(queries, boxes, i, j);
    }
    if queries != [] {
      JobsAre(Init(queries), boxes, job);
      assert forall q :: q in Init(queries) ==> q in queries;
      assert job in JobsOf(Last(queries), boxes) ==> job.query == Last(queries) && job.box in boxes;
    }
  }

  /** The size told for a mailbox is the last any of its searches was told. */
  lemma {:induction false} SizeIsLast(w: Server, jobs: seq<Job>, box: string, k: nat)
    requires k < |jobs| && jobs[k].box == box && w.size(jobs[k]).Some?
    requires forall j | k < j < |jobs| && jobs[j].box == box :: w.size(jobs[j]).None?
    ensures LastSize(w, jobs, box) == w.size(jobs[k])
  {
    if k < |jobs| - 1 {
      SizeIsLast(w, Init(jobs), box, k);
    }
  }

  lemma {:induction false} NoSize(w: Server, jobs: seq<Job>, box: string)
    requires forall j | 0 <= j < |jobs| && jobs[j].box == box :: w.size(jobs[j]).None?
    ensures LastSize(w, jobs, box) == None
  {
    if jobs != [] {
      NoSize(w, Init(jobs), box);
    }
  }

  /** Each mailbox's count is the union of what its searches found. */
  lemma {:induction false} FoundIsUnion(w: Server, jobs: seq<Job>, box: string, u: nat)
    ensures u in Found(w, jobs, box) <==> exists k | 0 <= k < |jobs| :: jobs[k].box == box && u in w.find(jobs[k])
  {
    if jobs != [] {
      FoundIsUnion(w, Init(jobs), box, u);
      assert jobs == Init(jobs) + [Last(jobs)];
    }
  }

  // ----- What the merge keeps.

  ghost predicate DistinctKeys(results: seq<Summary>) {
    forall i, j | 0 <= i < j < |results| :: Key(results[i]) != Key(results[j])
  }

  lemma {:induction false} AddAllKeeps(results: seq<Summary>, more: seq<Summary>)
    requires DistinctKeys(results)
    ensures results <= AddAll(results, more) && DistinctKeys(AddAll(results, more))
    ensures forall s | s in AddAll(results, more) :: s in results || s in more
    ensures forall k | 0 <= k < |more| :: HasKey(AddAll(results, more), Key(more[k]))
  {
    if more != [] {
      AddAllKeeps(results, Init(more));
      var before, after := AddAll(results, Init(more)), AddAll(results, more);
      assert before <= after;
      forall k | 0 <= k < |more| ensures HasKey(after, Key(more[k])) {
        if k < |more| - 1 {
          assert Init(more)[k] == more[k];
          KeyStays(before, after, Key(more[k]));
        } else if !HasKey(before, Key(Last(more))) {
          assert after[|before|] == Last(more);
        }
      }
    }
  }

  lemma KeyStays(before: seq<Summary>, after: seq<Summary>, key: string)
    requires before <= after && HasKey(before, key)
    ensures HasKey(after, key)
  {
    var i :| 0 <= i < |before| && Key(before[i]) == key;
    assert Key(after[i]) == key;
  }

  ghost predicate ListedBy(w: Server, jobs: seq<Job>, limit: nat, s: Summary) {
    exists k | 0 <= k < |jobs| :: s in Listing(w, jobs[k], limit)
  }

  lemma {:induction false} MergedKeeps(w: Server, jobs: seq<Job>, limit: nat)
    ensures DistinctKeys(Merged(w, jobs, limit))
    ensures forall s | s in Merged(w, jobs, limit) :: ListedBy(w, jobs, limit, s)
  {
    if jobs != [] {
      var front, last := Init(jobs), Last(jobs);
      MergedKeeps(w, front, limit);
      var before, after := Merged(w, front, limit), Merged(w, jobs, limit);
      AddAllKeeps(before, Listing(w, last, limit));
      forall s | s in after ensures ListedBy(w, jobs, limit, s) {
        if s in before {
          var k :| 0 <= k < |front| && s in Listing(w, front[k], limit);
          assert jobs[k] == front[k];
        } else {
          assert jobs[|front|] == last;
        }
      }
    }
  }

  lemma {:induction false} ListedIsMerged(w: Server, jobs: seq<Job>, limit: nat, k: nat, s: Summary)
    requires k < |jobs| && s in Listing(w, jobs[k], limit)
    ensures HasKey(Merged(w, jobs, limit), Key(s))
  {
    var front := Init(jobs);
    MergedKeeps(w, front, limit);
    AddAllKeeps(Merged(w, front, limit), Listing(w, Last(jobs), limit));
    if k < |front| {
      assert front[k] == jobs[k];
      ListedIsMerged(w, front, limit, k, s);
      KeyStays(Merged(w, front, limit), Merged(w, jobs, limit), Key(s));
    }
  }

  // ----- The newest of all.

  /** Every fetch answers with exactly the messages asked for. */
  ghost predicate Answers(w: Server) {
    forall box: string, uids: seq<nat> :: multiset(w.answer(box, uids)) == multiset(uids)
  }

  /** A message some job finds. */
  ghost predicate IsMatch(w: Server, jobs: seq<Job>, s: Summary) {
    exists k | 0 <= k < |jobs| :: s.uid in w.find(jobs[k]) && s == Summarise(w, jobs[k].box, s.uid)
  }

  /** Every match has a date. */
  ghost predicate AllDated(w: Server, jobs: seq<Job>) {
    forall k, u | 0 <= k < |jobs| && u in w.find(jobs[k]) :: w.header(jobs[k].box, u).date.Some?
  }

  /** A message without a date is not older than time zero. */
  ghost predicate NowIsLate(w: Server, jobs: seq<Job>) {
    w.now >= 0 || AllDated(w, jobs)
  }

  /** All copies of a message, told by its key, carry one date. */
  ghost predicate OneDate(w: Server, jobs: seq<Job>) {
    forall s, t | IsMatch(w, jobs, s) && IsMatch(w, jobs, t) && Key(s) == Key(t) :: s.date == t.date
  }

  /** The merged list keeps a copy that is no older. */
  ghost predicate KeptNoOlder(merged: seq<Summary>, s: Summary) {
    exists at | 0 <= at < |merged| :: Key(merged[at]) == Key(s) && merged[at].date >= s.date
  }

  /** Of the copies of a message that are picked, none is newer than the one met first, which is kept. */
  ghost predicate FirstCopyNewest(w: Server, jobs: seq<Job>, limit: nat) {
    forall k, u | 0 <= k < |jobs| && u in Picked(w, jobs[k].box, w.find(jobs[k]), limit) ::
      KeptNoOlder(Merged(w, jobs, limit), Summarise(w, jobs[k].box, u))
  }

  /** Each search finds a message once, within the size the pre-pass accepts, under keys of their own. */
  ghost predicate WellKeyed(w: Server, jobs: seq<Job>) {
    forall k | 0 <= k < |jobs| :: WellKeyedJob(w, jobs[k])
  }

  ghost predicate WellKeyedJob(w: Server, job: Job) {
    && |w.find(job)| <= 10000 && NoRepeats(w.find(job))
    && forall u, v | u in w.find(job) && v in w.find(job) && u != v ::
         Key(Summarise(w, job.box, u)) != Key(Summarise(w, job.box, v))
  }

  lemma ListingHolds(w: Server, job: Job, limit: nat, s: Summary)
    requires Answers(w)
    ensures s in Listing(w, job, limit) <==>
      s.uid in Picked(w, job.box, w.find(job), limit) && s == Summarise(w, job.box, s.uid)
  {
    var picked := Picked(w, job.box, w.find(job), limit);
    var answered := if w.find(job) == [] then [] else w.answer(job.box, picked);
    assert s.uid in picked <==> s.uid in multiset(answered);
    var listing := Listing(w, job, limit);
    assert |listing| == |answered| && forall i | 0 <= i < |answered| :: listing[i] == Summarise(w, job.box, answered[i]);
    if s in listing {
      var i :| 0 <= i < |listing| && listing[i] == s;
      assert answered[i] == s.uid;
    }
    if s.uid in answered && s == Summarise(w, job.box, s.uid) {
      var i :| 0 <= i < |answered| && answered[i] == s.uid;
      assert listing[i] == s;
    }
  }

  lemma PickedAreFound(w: Server, box: string, uids: seq<nat>, limit: nat)
    requires Answers(w)
    ensures forall u | u in Picked(w, box, uids, limit) :: u in uids
  {
    var answered := w.answer(box, uids);
    SortByIsSort(answered, Time(w, box));
    var s := SortBy(answered, Time(w, box));
    SortByIsSort(Tail(s, limit), ByUid());
    forall u | u in Picked(w, box, uids, limit) ensures u in uids {
      if limit < |uids| <= PREPASS_MAX_UIDS && answered != [] {
        assert u in multiset(Tail(s, limit));
        assert u in multiset(s);
        assert u in multiset(uids);
      }
    }
  }

  lemma MergedAreMatches(w: Server, jobs: seq<Job>, limit: nat, s: Summary)
    requires Answers(w) && s in Merged(w, jobs, limit)
    ensures IsMatch(w, jobs, s)
  {
    MergedKeeps(w, jobs, limit);
    var k :| 0 <= k < |jobs| && s in Listing(w, jobs[k], limit);
    ListingHolds(w, jobs[k], limit, s);
    PickedAreFound(w, jobs[k].box, w.find(jobs[k]), limit);
  }

  /** The keys of some picked messages. */
  ghost function KeySet(w: Server, box: string, uids: seq<nat>): set<string> {
    set i | 0 <= i < |uids| :: Key(Summarise(w, box, uids[i]))
  }

  lemma {:induction false} AsManyKeys(w: Server, box: string, uids: seq<nat>)
    requires forall u :: multiset(uids)[u] <= 1
    requires forall u, v | u in uids && v in uids && u != v :: Key(Summarise(w, box, u)) != Key(Summarise(w, box, v))
    ensures |KeySet(w, box, uids)| == |uids|
  {
    if uids != [] {
      var first, rest := uids[0], uids[1..];
      assert uids == [first] + rest;
      assert multiset(uids) == multiset{first} + multiset(rest);
      assert forall u :: multiset(rest)[u] <= multiset(uids)[u];
      assert first !in rest by {
        assert multiset(uids)[first] == 1 + multiset(rest)[first];
      }
      AsManyKeys(w, box, rest);
      KeySetOfCons(w, box, first, rest);
      assert Key(Summarise(w, box, first)) !in KeySet(w, box, rest);
    }
  }

  lemma KeySetOfCons(w: Server, box: string, first: nat, rest: seq<nat>)
    ensures KeySet(w, box, [first] + rest) == {Key(Summarise(w, box, first))} + KeySet(w, box, rest)
  {
    var all := [first] + rest;
    assert forall i | 0 <= i < |rest| :: all[i + 1] == rest[i];
    forall key | key in KeySet(w, box, rest) ensures key in KeySet(w, box, all) {
      var i :| 0 <= i < |rest| && Key(Summarise(w, box, rest[i])) == key;
      assert all[i + 1] == rest[i];
    }
    assert all[0] == first;
  }

  ghost function ResultKeys(results: seq<Summary>): set<string> {
    set i | 0 <= i < |results| :: Key(results[i])
  }

  lemma {:induction false} FewKeys(results: seq<Summary>)
    ensures |ResultKeys(results)| <= |results|
  {
    if results != [] {
      FewKeys(Init(results));
      var last := {Key(Last(results))};
      assert ResultKeys(results) <= ResultKeys(Init(results)) + last by {
        forall i | 0 <= i < |results| ensures Key(results[i]) in ResultKeys(Init(results)) + last {
          if i < |results| - 1 { assert Init(results)[i] == results[i]; }
        }
      }
      ProperSubsetSize(ResultKeys(results), ResultKeys(Init(results)) + last);
    }
  }

  /** With at least `limit` keys of messages no older than a date, what is returned is no older either. */
  lemma EnoughNewer(merged: seq<Summary>, sorted: seq<Summary>, keys: set<string>, date: int, i: nat)
    requires Sorted(sorted, NewestFirst()) && multiset(sorted) == multiset(merged)
    requires forall key | key in keys :: exists k | 0 <= k < |merged| :: Key(merged[k]) == key && merged[k].date >= date
    requires i < |keys| && i < |sorted|
    ensures sorted[i].date >= date
  {
    assert forall j | i <= j < |sorted| :: NewestFirst()(sorted[i]) <= NewestFirst()(sorted[j]);
    if sorted[i].date < date {
      var front := sorted[..i];
      forall key | key in keys ensures key in ResultKeys(front) {
        var k :| 0 <= k < |merged| && Key(merged[k]) == key && merged[k].date >= date;
        assert merged[k] in multiset(sorted);
        var j :| 0 <= j < |sorted| && sorted[j] == merged[k];
        assert j < i;
        assert front[j] == sorted[j];
      }
      ProperSubsetSize(keys, ResultKeys(front));
      FewKeys(front);
      assert false;
    }
  }

  /** A picked message stands in the merged list under its key, as a copy of one date does. */
  lemma OneDateIsEnough(w: Server, jobs: seq<Job>, limit: nat)
    requires Answers(w) && OneDate(w, jobs)
    ensures FirstCopyNewest(w, jobs, limit)
  {
    var merged := Merged(w, jobs, limit);
    forall k, u | 0 <= k < |jobs| && u in Picked(w, jobs[k].box, w.find(jobs[k]), limit)
      ensures KeptNoOlder(merged, Summarise(w, jobs[k].box, u))
    {
      var s := Summarise(w, jobs[k].box, u);
      ListingHolds(w, jobs[k], limit, s);
      ListedIsMerged(w, jobs, limit, k, s);
      var at :| 0 <= at < |merged| && Key(merged[at]) == Key(s);
      MergedAreMatches(w, jobs, limit, merged[at]);
      PickedAreFound(w, jobs[k].box, w.find(jobs[k]), limit);
      assert IsMatch(w, jobs, s);
    }
  }

  /** When a search leaves a dated message behind, the merged list alone fills the limit with messages no older. */
  lemma LeftBehindIsOlder(w: Server, jobs: seq<Job>, limit: nat, k: nat, u: nat, i: nat)
    requires limit >= 1 && Answers(w) && FirstCopyNewest(w, jobs, limit) && NowIsLate(w, jobs) && WellKeyed(w, jobs) && k < |jobs|
    requires u in w.find(jobs[k]) && u !in Picked(w, jobs[k].box, w.find(jobs[k]), limit)
    requires w.header(jobs[k].box, u).date.Some?
    ensures i < limit ==> i < |Returned(w, jobs, limit)| && Returned(w, jobs, limit)[i].date >= Summarise(w, jobs[k].box, u).date
  {
    var box, merged, date := jobs[k].box, Merged(w, jobs, limit), Summarise(w, jobs[k].box, u).date;
    var keys := KeySet(w, box, Picked(w, box, w.find(jobs[k]), limit));
    PickedFillLimit(w, jobs[k], limit, u);
    SortByIsSort(merged, NewestFirst());
    forall key | key in keys ensures exists at | 0 <= at < |merged| :: Key(merged[at]) == key && merged[at].date >= date {
      var at := NewerIsMerged(w, jobs, limit, k, u, key);
    }
    AtLeastAsMany(merged, keys);
    if i < limit {
      EnoughNewer(merged, SortBy(merged, NewestFirst()), keys, date, i);
    }
  }

  /** A search that leaves a message behind picks as many keys as the limit. */
  lemma PickedFillLimit(w: Server, job: Job, limit: nat, u: nat)
    requires limit >= 1 && Answers(w) && WellKeyedJob(w, job)
    requires u in w.find(job) && u !in Picked(w, job.box, w.find(job), limit)
    ensures limit < |w.find(job)| <= PREPASS_MAX_UIDS
    ensures |KeySet(w, job.box, Picked(w, job.box, w.find(job), limit))| == limit
  {
    var box, uids := job.box, w.find(job);
    var picked := Picked(w, box, uids, limit);
    PickedAreNewest(w, box, uids, limit);
    PickedAreFound(w, box, uids, limit);
    forall v ensures multiset(picked)[v] <= 1 {
      NoRepeatsCounted(uids, v);
    }
    AsManyKeys(w, box, picked);
  }

  /** Each of those keys stands in the merged list for a message no older than the one left behind. */
  lemma NewerIsMerged(w: Server, jobs: seq<Job>, limit: nat, k: nat, u: nat, key: string) returns (at: nat)
    requires limit >= 1 && Answers(w) && FirstCopyNewest(w, jobs, limit) && NowIsLate(w, jobs) && WellKeyed(w, jobs) && k < |jobs|
    requires u in w.find(jobs[k]) && u !in Picked(w, jobs[k].box, w.find(jobs[k]), limit)
    requires w.header(jobs[k].box, u).date.Some?
    requires key in KeySet(w, jobs[k].box, Picked(w, jobs[k].box, w.find(jobs[k]), limit))
    ensures at < |Merged(w, jobs, limit)|
    ensures Key(Merged(w, jobs, limit)[at]) == key && Merged(w, jobs, limit)[at].date >= Summarise(w, jobs[k].box, u).date
  {
    var box, uids := jobs[k].box, w.find(jobs[k]);
    var picked := Picked(w, box, uids, limit);
    assert WellKeyedJob(w, jobs[k]);
    PickedFillLimit(w, jobs[k], limit, u);
    PickedAreNewest(w, box, uids, limit);
    PickedAreFound(w, box, uids, limit);
    var j :| 0 <= j < |picked| && Key(Summarise(w, box, picked[j])) == key;
    var v, merged := Summarise(w, box, picked[j]), Merged(w, jobs, limit);
    assert KeptNoOlder(merged, v);
    at :| 0 <= at < |merged| && Key(merged[at]) == Key(v) && merged[at].date >= v.date;
    NewerSummary(w, jobs, k, u, picked[j]);
  }

  lemma AtLeastAsMany(results: seq<Summary>, keys: set<string>)
    requires forall key | key in keys :: exists k | 0 <= k < |results| :: Key(results[k]) == key
    ensures |keys| <= |results|
  {
    ProperSubsetSize(keys, ResultKeys(results));
    FewKeys(results);
  }

  lemma NewerSummary(w: Server, jobs: seq<Job>, k: nat, u: nat, v: nat)
    requires NowIsLate(w, jobs) && k < |jobs| && u in w.find(jobs[k]) && v in w.find(jobs[k])
    requires Time(w, jobs[k].box)(u) <= Time(w, jobs[k].box)(v) && w.header(jobs[k].box, u).date.Some?
    ensures Summarise(w, jobs[k].box, u).date <= Summarise(w, jobs[k].box, v).date
  {
  }

  /** A match is returned, under its key, or the limit is reached by messages no older. */
  ghost predicate ReturnedOrOlder(w: Server, jobs: seq<Job>, limit: nat, s: Summary) {
    var r := Returned(w, jobs, limit);
    HasKey(r, Key(s)) || (|r| == limit && forall i | 0 <= i < |r| :: r[i].date >= s.date)
  }

  /** Some search picks a message with this key. */
  ghost predicate IsPicked(w: Server, jobs: seq<Job>, limit: nat, key: string) {
    exists j, v | 0 <= j < |jobs| && v in Picked(w, jobs[j].box, w.find(jobs[j]), limit) :: Key(Summarise(w, jobs[j].box, v)) == key
  }

  lemma KeptIsReturnedOrOlder(w: Server, jobs: seq<Job>, limit: nat, s: Summary)
    requires KeptNoOlder(Merged(w, jobs, limit), s)
    ensures ReturnedOrOlder(w, jobs, limit, s)
  {
    var merged, r := Merged(w, jobs, limit), Returned(w, jobs, limit);
    var at :| 0 <= at < |merged| && Key(merged[at]) == Key(s) && merged[at].date >= s.date;
    SortByIsSort(merged, NewestFirst());
    var sorted := SortBy(merged, NewestFirst());
    assert merged[at] in multiset(sorted);
    var j :| 0 <= j < |sorted| && sorted[j] == merged[at];
    if j < |r| {
      assert Key(r[j]) == Key(s);
    } else {
      forall i | 0 <= i < |r| ensures r[i].date >= s.date {
        assert NewestFirst()(sorted[i]) <= NewestFirst()(sorted[j]);
      }
    }
  }

  /** A dated match is returned, or the limit is reached by messages no older. */
  lemma DatedIsReturnedOrOlder(w: Server, jobs: seq<Job>, limit: nat, k: nat, u: nat)
    requires limit >= 1 && Answers(w) && FirstCopyNewest(w, jobs, limit) && NowIsLate(w, jobs) && WellKeyed(w, jobs)
    requires k < |jobs| && u in w.find(jobs[k]) && w.header(jobs[k].box, u).date.Some?
    ensures ReturnedOrOlder(w, jobs, limit, Summarise(w, jobs[k].box, u))
  {
    var s, r := Summarise(w, jobs[k].box, u), Returned(w, jobs, limit);
    if u in Picked(w, jobs[k].box, w.find(jobs[k]), limit) {
      KeptIsReturnedOrOlder(w, jobs, limit, s);
    } else {
      LeftBehindIsOlder(w, jobs, limit, k, u, limit - 1);
      forall i | 0 <= i < |r| ensures r[i].date >= s.date {
        LeftBehindIsOlder(w, jobs, limit, k, u, i);
      }
    }
  }

  /** The newest of all matches: a match either is returned, under its key, or no returned message is older
      than it; and then the limit is reached. */
  lemma NewestOfAll(w: Server, jobs: seq<Job>, limit: nat, k: nat, u: nat)
    requires limit >= 1 && Answers(w) && FirstCopyNewest(w, jobs, limit) && AllDated(w, jobs) && WellKeyed(w, jobs)
    requires k < |jobs| && u in w.find(jobs[k])
    ensures ReturnedOrOlder(w, jobs, limit, Summarise(w, jobs[k].box, u))
  {
    DatedIsReturnedOrOlder(w, jobs, limit, k, u);
  }

  // ----- Messages without a date.

  lemma ReturnedAreMerged(w: Server, jobs: seq<Job>, limit: nat, s: Summary)
    requires s in Returned(w, jobs, limit)
    ensures s in Merged(w, jobs, limit)
  {
    var merged := Merged(w, jobs, limit);
    SortByIsSort(merged, NewestFirst());
    var sorted := SortBy(merged, NewestFirst());
    assert s in sorted;
    assert s in multiset(sorted);
    assert s in multiset(merged);
  }

  /** The result is the limit, or all there is, newest first. */
  lemma ReturnedAreInOrder(w: Server, jobs: seq<Job>, limit: nat)
    ensures |Returned(w, jobs, limit)| == Min(limit, |Merged(w, jobs, limit)|)
    ensures forall i, j | 0 <= i < j < |Returned(w, jobs, limit)| :: Returned(w, jobs, limit)[i].date >= Returned(w, jobs, limit)[j].date
  {
    var merged, r := Merged(w, jobs, limit), Returned(w, jobs, limit);
    SortByIsSort(merged, NewestFirst());
    var sorted := SortBy(merged, NewestFirst());
    SameMultisetSameLength(merged, sorted);
    forall i, j | 0 <= i < j < |r| ensures r[i].date >= r[j].date {
      assert NewestFirst()(sorted[i]) <= NewestFirst()(sorted[j]);
    }
  }

  lemma ReturnedIsPicked(w: Server, jobs: seq<Job>, limit: nat, key: string)
    requires Answers(w) && HasKey(Returned(w, jobs, limit), key)
    ensures IsPicked(w, jobs, limit, key)
  {
    var r := Returned(w, jobs, limit);
    var i :| 0 <= i < |r| && Key(r[i]) == key;
    ReturnedAreMerged(w, jobs, limit, r[i]);
    MergedKeeps(w, jobs, limit);
    assert ListedBy(w, jobs, limit, r[i]);
    ListedIsPicked(w, jobs, limit, r[i]);
  }

  lemma ListedIsPicked(w: Server, jobs: seq<Job>, limit: nat, s: Summary)
    requires Answers(w) && ListedBy(w, jobs, limit, s)
    ensures IsPicked(w, jobs, limit, Key(s))
  {
    var k :| 0 <= k < |jobs| && s in Listing(w, jobs[k], limit);
    ListingHolds(w, jobs[k], limit, s);
  }

  /** A search that leaves a message behind fills the limit. */
  lemma LeftBehindFillsLimit(w: Server, jobs: seq<Job>, limit: nat, k: nat, u: nat)
    requires limit >= 1 && Answers(w) && FirstCopyNewest(w, jobs, limit) && WellKeyed(w, jobs) && k < |jobs|
    requires u in w.find(jobs[k]) && u !in Picked(w, jobs[k].box, w.find(jobs[k]), limit)
    ensures |Returned(w, jobs, limit)| == limit
  {
    var box, merged := jobs[k].box, Merged(w, jobs, limit);
    var picked := Picked(w, box, w.find(jobs[k]), limit);
    var keys := KeySet(w, box, picked);
    PickedFillLimit(w, jobs[k], limit, u);
    forall key | key in keys ensures exists at | 0 <= at < |merged| :: Key(merged[at]) == key {
      var j :| 0 <= j < |picked| && Key(Summarise(w, box, picked[j])) == key;
      var v := Summarise(w, box, picked[j]);
      assert KeptNoOlder(merged, v);
      var at :| 0 <= at < |merged| && Key(merged[at]) == Key(v);
    }
    AtLeastAsMany(merged, keys);
    SortByIsSort(merged, NewestFirst());
  }

  /** The promise, for every match. */
  ghost predicate AllReturnedOrOlder(w: Server, jobs: seq<Job>, limit: nat) {
    forall k, u | 0 <= k < |jobs| && u in w.find(jobs[k]) :: ReturnedOrOlder(w, jobs, limit, Summarise(w, jobs[k].box, u))
  }

  /** Every match without a date is kept as a copy no older than the present, or returned as one that is. */
  ghost predicate AllUndatedKept(w: Server, jobs: seq<Job>, limit: nat) {
    forall k, u | 0 <= k < |jobs| && u in w.find(jobs[k]) ::
      w.header(jobs[k].box, u).date.None? ==> UndatedKept(w, jobs, limit, Summarise(w, jobs[k].box, u))
  }

  ghost predicate UndatedKept(w: Server, jobs: seq<Job>, limit: nat, s: Summary) {
    KeptNoOlder(Merged(w, jobs, limit), s) || HasKey(Returned(w, jobs, limit), Key(s))
  }

  ghost predicate NoneOlderThanNow(w: Server, jobs: seq<Job>, limit: nat) {
    forall i | 0 <= i < |Returned(w, jobs, limit)| :: Returned(w, jobs, limit)[i].date >= w.now
  }

  lemma UndatedIsReturnedOrOlder(w: Server, jobs: seq<Job>, limit: nat, k: nat, u: nat)
    requires limit >= 1 && Answers(w) && FirstCopyNewest(w, jobs, limit) && WellKeyed(w, jobs)
    requires k < |jobs| && u in w.find(jobs[k]) && w.header(jobs[k].box, u).date.None?
    ensures ReturnedOrOlder(w, jobs, limit, Summarise(w, jobs[k].box, u)) <==>
      UndatedKept(w, jobs, limit, Summarise(w, jobs[k].box, u)) || NoneOlderThanNow(w, jobs, limit)
  {
    var s := Summarise(w, jobs[k].box, u);
    if KeptNoOlder(Merged(w, jobs, limit), s) {
      KeptIsReturnedOrOlder(w, jobs, limit, s);
    } else {
      assert u !in Picked(w, jobs[k].box, w.find(jobs[k]), limit);
      LeftBehindFillsLimit(w, jobs, limit, k, u);
    }
  }

  /** The newest of all, for every server on which no copy of a message is newer than the one met first: the promise is
      kept for all matches exactly when every match without a date is kept so, or nothing returned is older than the
      present. */
  lemma NewestOfAllIff(w: Server, jobs: seq<Job>, limit: nat)
    requires limit >= 1 && Answers(w) && FirstCopyNewest(w, jobs, limit) && NowIsLate(w, jobs) && WellKeyed(w, jobs)
    ensures AllReturnedOrOlder(w, jobs, limit) <==> AllUndatedKept(w, jobs, limit) || NoneOlderThanNow(w, jobs, limit)
  {
    forall k: nat, u | k < |jobs| && u in w.find(jobs[k])
      ensures ReturnedOrOlder(w, jobs, limit, Summarise(w, jobs[k].box, u)) <==>
        || w.header(jobs[k].box, u).date.Some?
        || UndatedKept(w, jobs, limit, Summarise(w, jobs[k].box, u))
        || NoneOlderThanNow(w, jobs, limit)
    {
      if w.header(jobs[k].box, u).date.None? {
        UndatedIsReturnedOrOlder(w, jobs, limit, k, u);
      } else {
        DatedIsReturnedOrOlder(w, jobs, limit, k, u);
      }
    }
  }

  /** With one date for each key, a match without a date is kept exactly if some search picks its key. */
  lemma UndatedKeptIffPicked(w: Server, jobs: seq<Job>, limit: nat, k: nat, u: nat)
    requires Answers(w) && OneDate(w, jobs) && k < |jobs| && u in w.find(jobs[k])
    ensures UndatedKept(w, jobs, limit, Summarise(w, jobs[k].box, u)) <==>
      IsPicked(w, jobs, limit, Key(Summarise(w, jobs[k].box, u)))
  {
    var s, merged := Summarise(w, jobs[k].box, u), Merged(w, jobs, limit);
    if KeptNoOlder(merged, s) {
      var at :| 0 <= at < |merged| && Key(merged[at]) == Key(s) && merged[at].date >= s.date;
      MergedKeeps(w, jobs, limit);
      ListedIsPicked(w, jobs, limit, merged[at]);
    } else if HasKey(Returned(w, jobs, limit), Key(s)) {
      ReturnedIsPicked(w, jobs, limit, Key(s));
    } else if IsPicked(w, jobs, limit, Key(s)) {
      PickedKeyIsKept(w, jobs, limit, s);
    }
  }

  lemma PickedKeyIsKept(w: Server, jobs: seq<Job>, limit: nat, s: Summary)
    requires Answers(w) && OneDate(w, jobs) && IsMatch(w, jobs, s) && IsPicked(w, jobs, limit, Key(s))
    ensures KeptNoOlder(Merged(w, jobs, limit), s)
  {
    var merged := Merged(w, jobs, limit);
    var j, v :| 0 <= j < |jobs| && v in Picked(w, jobs[j].box, w.find(jobs[j]), limit) && Key(Summarise(w, jobs[j].box, v)) == Key(s);
    OneDateIsEnough(w, jobs, limit);
    var t := Summarise(w, jobs[j].box, v);
    assert KeptNoOlder(merged, t);
    PickedAreFound(w, jobs[j].box, w.find(jobs[j]), limit);
    assert IsMatch(w, jobs, t);
  }

  // ----- Copies of different dates.

  /** How many summaries are no older than a date. */
  function NoOlder(s: seq<Summary>, date: int): nat {
    if s == [] then 0 else NoOlder(Init(s), date) + if Last(s).date >= date then 1 else 0
  }

  lemma {:induction false} NoOlderOfSorted(sorted: seq<Summary>, date: int, limit: nat)
    requires Sorted(sorted, NewestFirst())
    ensures NoOlder(sorted, date) <= |sorted|
    ensures NoOlder(sorted, date) >= limit <==> limit <= |sorted| && forall i | 0 <= i < limit :: sorted[i].date >= date
    decreases |sorted|
  {
    if sorted != [] {
      var front := Init(sorted);
      assert forall i | 0 <= i < |sorted| :: NewestFirst()(sorted[i]) <= NewestFirst()(Last(sorted));
      if Last(sorted).date >= date {
        assert forall i | 0 <= i < |sorted| :: sorted[i].date >= date;
        NoOlderOfSorted(front, date, |front|);
      } else {
        NoOlderOfSorted(front, date, limit);
      }
    }
  }

  lemma {:induction false} NoOlderOfInsert(x: Summary, s: seq<Summary>, key: Summary -> int, date: int)
    ensures NoOlder(Insert(x, s, key), date) == NoOlder(s, date) + if x.date >= date then 1 else 0
  {
    if s == [] {
      assert Init([x]) == [];
    } else if key(x) <= key(s[0]) {
      NoOlderCons(x, s, date);
    } else {
      NoOlderOfInsert(x, s[1..], key, date);
      NoOlderCons(s[0], Insert(x, s[1..], key), date);
      NoOlderCons(s[0], s[1..], date);
      assert s == [s[0]] + s[1..];
    }
  }

  lemma {:induction false} NoOlderCons(x: Summary, s: seq<Summary>, date: int)
    ensures NoOlder([x] + s, date) == NoOlder(s, date) + if x.date >= date then 1 else 0
  {
    if s == [] {
      assert [x] + s == [x] && Init([x]) == [];
    } else {
      assert Init([x] + s) == [x] + Init(s);
      NoOlderCons(x, Init(s), date);
    }
  }

  lemma {:induction false} NoOlderOfSort(s: seq<Summary>, key: Summary -> int, date: int)
    ensures NoOlder(SortBy(s, key), date) == NoOlder(s, date)
  {
    if s != [] {
      NoOlderOfSort(s[1..], key, date);
      NoOlderOfInsert(s[0], SortBy(s[1..], key), key, date);
      NoOlderCons(s[0], s[1..], date);
      assert s == [s[0]] + s[1..];
    }
  }

  /** For every server, whatever the dates of copies: a match is returned or the full result no older exactly if its key
      is returned, under whatever copy, or at least the limit of the kept messages are no older than it. */
  lemma ReturnedOrOlderIff(w: Server, jobs: seq<Job>, limit: nat, s: Summary)
    ensures ReturnedOrOlder(w, jobs, limit, s) <==>
      HasKey(Returned(w, jobs, limit), Key(s)) || NoOlder(Merged(w, jobs, limit), s.date) >= limit
  {
    var merged := Merged(w, jobs, limit);
    var sorted := SortBy(merged, NewestFirst());
    SortByIsSort(merged, NewestFirst());
    NoOlderOfSort(merged, NewestFirst(), s.date);
    CutIsNoOlderIff(sorted, s.date, limit, Returned(w, jobs, limit));
  }

  lemma CutIsNoOlderIff(sorted: seq<Summary>, date: int, limit: nat, r: seq<Summary>)
    requires Sorted(sorted, NewestFirst()) && r == sorted[..Min(limit, |sorted|)]
    ensures NoOlder(sorted, date) >= limit <==> |r| == limit && forall i | 0 <= i < |r| :: r[i].date >= date
  {
    NoOlderOfSorted(sorted, date, limit);
    assert forall i | 0 <= i < |r| :: r[i] == sorted[i];
  }

  const BOX := "A"

  /** One search that finds messages 1 and 2, the first without a date. */
  function UndatedServer(): Server {
    Server((job: Job) => [1, 2], (job: Job) => None,
           (box: string, uid: nat) => Header(if uid == 1 then "x" else "y", if uid == 1 then None else Some(5)),
           (box: string, uids: seq<nat>) => uids, 100)
  }

  /** A server on which the condition fails: a message without a date is the oldest to the pre-pass and the newest to
      the final sort, so it is cut, though its summary carries the present time. */
  lemma UndatedIsCutThoughNewest(query: Query)
    ensures var w, job := UndatedServer(), Job(query, BOX);
      Returned(w, [job], 1) == [Summarise(w, BOX, 2)] && Summarise(w, BOX, 1).date > Summarise(w, BOX, 2).date
  {
    var w, job := UndatedServer(), Job(query, BOX);
    var time := Time(w, BOX);
    assert SortBy<nat>([2], time) == [2] && [1, 2][1..] == [2];
    assert SortBy<nat>([1, 2], time) == [1, 2];
    assert Tail([1, 2], 1) == [2];
    assert SortBy<nat>([2], ByUid()) == [2];
    assert Picked(w, BOX, [1, 2], 1) == [2];
    var s := Summarise(w, BOX, 2);
    assert Listing(w, job, 1) == [s];
    OneSummary(w, job, 1, s);
  }

  lemma OneSummary(w: Server, job: Job, limit: nat, s: Summary)
    requires Listing(w, job, limit) == [s] && limit >= 1
    ensures Returned(w, [job], limit) == [s]
  {
    assert Init([job]) == [] && Init([s]) == [];
    assert AddAll([], [s]) == [s];
    assert Merged(w, [job], limit) == [s];
    var sorted := SortBy([s], NewestFirst());
    assert SortBy([s][1..], NewestFirst()) == [];
    assert sorted == Insert(s, [], NewestFirst());
    assert sorted == [s] && sorted[..1] == [s];
  }

  /** Three mailboxes with one message each: an older and a newer copy of "x", and "y" dated between them. */
  function CopiesServer(): Server {
    Server((job: Job) => [1], (job: Job) => None,
           (box: string, uid: nat) => if box == "A" then Header("x", Some(5)) else if box == "B" then Header("x", Some(10)) else Header("y", Some(7)),
           (box: string, uids: seq<nat>) => uids, 100)
  }

  lemma OneListed(job: Job, box: string)
    requires job.box == box
    ensures Listing(CopiesServer(), job, 1) == [Summarise(CopiesServer(), box, 1)]
  {
    var w := CopiesServer();
    assert Picked(w, box, [1], 1) == [1];
  }

  lemma AddOne(results: seq<Summary>, s: Summary)
    ensures AddAll(results, [s]) == Add(results, s)
  {
    assert Init([s]) == [] && AddAll(results, []) == results;
  }

  lemma CopiesDiffer()
    ensures var w := CopiesServer();
      var a, b, c := Summarise(w, "A", 1), Summarise(w, "B", 1), Summarise(w, "C", 1);
      a == Summary("A", 1, "x", 5) && b == Summary("B", 1, "x", 10) && c == Summary("C", 1, "y", 7)
  {
    assert "A"[0] == 'A' && "B"[0] == 'B' && "C"[0] == 'C';
  }

  lemma CopiesMerged(query: Query)
    ensures var w := CopiesServer();
      Merged(w, [Job(query, "A"), Job(query, "B"), Job(query, "C")], 1) == [Summarise(w, "A", 1), Summarise(w, "C", 1)]
  {
    var w := CopiesServer();
    var ja, jb, jc := Job(query, "A"), Job(query, "B"), Job(query, "C");
    var a, b, c := Summarise(w, "A", 1), Summarise(w, "B", 1), Summarise(w, "C", 1);
    CopiesDiffer();
    OneListed(ja, "A");
    OneListed(jb, "B");
    OneListed(jc, "C");
    AddOne([], a);
    AddOne([a], b);
    AddOne([a], c);
    assert Init([ja]) == [] && Init([ja, jb]) == [ja] && Init([ja, jb, jc]) == [ja, jb];
    assert Merged(w, [ja], 1) == [a];
    assert HasKey([a], Key(b)) by { assert Key([a][0]) == Key(b); }
    assert Merged(w, [ja, jb], 1) == [a];
    assert "x"[0] == 'x' && "y"[0] == 'y';
    assert !HasKey([a], Key(c));
  }

  /** The older copy is met first and kept, the message between is the newest kept, and the newer copy, newest of all,
      is neither returned nor older than what is. */
  lemma NewerCopyIsLost(query: Query)
    ensures var w, jobs := CopiesServer(), [Job(query, "A"), Job(query, "B"), Job(query, "C")];
      !ReturnedOrOlder(w, jobs, 1, Summarise(w, "B", 1))
  {
    var w, jobs := CopiesServer(), [Job(query, "A"), Job(query, "B"), Job(query, "C")];
    var a, b, c := Summarise(w, "A", 1), Summarise(w, "B", 1), Summarise(w, "C", 1);
    CopiesDiffer();
    CopiesMerged(query);
    SortTwo(a, c);
    assert Returned(w, jobs, 1) == [c];
    assert "x"[0] == 'x' && "y"[0] == 'y';
    assert !HasKey([c], Key(b));
    assert Returned(w, jobs, 1)[0].date < b.date;
  }

  lemma SortTwo(a: Summary, c: Summary)
    requires a.date < c.date
    ensures SortBy([a, c], NewestFirst()) == [c, a]
  {
    var key := NewestFirst();
    assert [a, c][1..] == [c] && [c][1..] == [];
    assert SortBy([c][1..], key) == [];
    assert SortBy([c], key) == Insert(c, [], key) == [c];
    assert Insert(a, [c][1..], key) == [a];
    assert SortBy([a, c], key) == Insert(a, [c], key);
  }
}
