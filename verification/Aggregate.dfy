/** The aggregation of scripts/ci-slowest-tests.ts: 16 workers take jobs from a queue, fetch their logs in
    any order and fold them into one table. Between two awaits a worker runs without interruption. */
module Aggregate {
  import opened Wrappers

  /** Milliseconds by file, as parsed from one log. */
  type Log = map<string, nat>

  /** `log` is `None` if fetching it fails. */
  datatype Job = Job(id: int, plat: string, log: Option<Log>)

  datatype Agg = Agg(maxMs: nat, maxPlat: string, perPlat: map<string, nat>)

  type Table = map<string, Agg>

  // ---------------------------------------------------------------- specification

  predicate Reports(job: Job, file: string) {
    job.log.Some? && file in job.log.value
  }

  /** What the jobs report for a file on a platform, in all. */
  ghost function Sum(jobs: seq<Job>, file: string, plat: string): nat {
    if jobs == [] then 0
    else
      var job := jobs[|jobs| - 1];
      Sum(jobs[..|jobs| - 1], file, plat) + if Reports(job, file) && job.plat == plat then job.log.value[file] else 0
  }

  ghost predicate Mentions(jobs: seq<Job>, file: string) {
    exists i :: 0 <= i < |jobs| && Reports(jobs[i], file)
  }

  ghost predicate MentionsOn(jobs: seq<Job>, file: string, plat: string) {
    exists i :: 0 <= i < |jobs| && Reports(jobs[i], file) && jobs[i].plat == plat
  }

  /** The entry of one file: sums per platform, their maximum, and a platform that attains it. */
  ghost predicate EntryOk(a: Agg, jobs: seq<Job>, file: string) {
    && (forall p :: p in a.perPlat <==> MentionsOn(jobs, file, p))
    && (forall p :: p in a.perPlat ==> a.perPlat[p] == Sum(jobs, file, p) && a.perPlat[p] <= a.maxMs)
    && (a.maxMs > 0 ==> a.maxPlat in a.perPlat && a.perPlat[a.maxPlat] == a.maxMs)
  }

  /** The table is that of the jobs done. */
  ghost predicate TableOk(agg: Table, jobs: seq<Job>) {
    forall file :: (file in agg <==> Mentions(jobs, file)) && (file in agg ==> EntryOk(agg[file], jobs, file))
  }

  // ---------------------------------------------------------------- folding one log in

  /** The loop body for one file. */
  function Charge(a: Agg, plat: string, ms: nat): Agg {
    var total := (if plat in a.perPlat then a.perPlat[plat] else 0) + ms;
    var perPlat := a.perPlat[plat := total];
    if total > a.maxMs then Agg(total, plat, perPlat) else Agg(a.maxMs, a.maxPlat, perPlat)
  }

  function Entry(agg: Table, file: string): Agg {
    if file in agg then agg[file] else Agg(0, "", map[])
  }

  /** `r` is `agg` with the files `done` of a log folded in. */
  ghost predicate Folded(r: Table, agg: Table, plat: string, log: Log, done: set<string>) {
    && done <= log.Keys && r.Keys == agg.Keys + done
    && (forall f :: f in done ==> r[f] == Charge(Entry(agg, f), plat, log[f]))
    && (forall f :: f in agg && f !in done ==> r[f] == agg[f])
  }

  lemma FoldStep(r: Table, agg: Table, plat: string, log: Log, done: set<string>, f: string)
    requires Folded(r, agg, plat, log, done) && f in log && f !in done
    ensures Folded(r[f := Charge(Entry(r, f), plat, log[f])], agg, plat, log, done + {f})
  {
    assert Entry(r, f) == Entry(agg, f);
  }

  /** The files of a log in any order. */
  method Fold(agg: Table, plat: string, log: Log) returns (r: Table)
    ensures Folded(r, agg, plat, log, log.Keys)
  {
    r := agg;
    var todo := log.Keys;
    while todo != {}
      invariant todo <= log.Keys && Folded(r, agg, plat, log, log.Keys - todo)
      decreases todo
    {
      var f :| f in todo;
      FoldStep(r, agg, plat, log, log.Keys - todo, f);
      r := r[f := Charge(Entry(r, f), plat, log[f])];
      assert log.Keys - (todo - {f}) == log.Keys - todo + {f};
      todo := todo - {f};
    }
    assert log.Keys - {} == log.Keys;
  }

  lemma SumStep(jobs: seq<Job>, job: Job, file: string, plat: string)
    ensures Sum(jobs + [job], file, plat) ==
            Sum(jobs, file, plat) + if Reports(job, file) && job.plat == plat then job.log.value[file] else 0
    ensures MentionsOn(jobs + [job], file, plat) <==>
      MentionsOn(jobs, file, plat) || (Reports(job, file) && job.plat == plat)
    ensures Mentions(jobs + [job], file) <==> Mentions(jobs, file) || Reports(job, file)
  {
    var more := jobs + [job];
    assert more[..|jobs|] == jobs && more[|jobs|] == job;
    assert forall i :: 0 <= i < |jobs| ==> more[i] == jobs[i];
  }

  lemma {:induction false} UnmentionedSum(jobs: seq<Job>, file: string, plat: string)
    requires !MentionsOn(jobs, file, plat)
    ensures Sum(jobs, file, plat) == 0
  {
    if jobs != [] {
      var h := jobs[..|jobs| - 1];
      assert forall i :: 0 <= i < |h| ==> h[i] == jobs[i];
      UnmentionedSum(h, file, plat);
    }
  }

  lemma NoEntryYet(jobs: seq<Job>, file: string)
    requires !Mentions(jobs, file)
    ensures EntryOk(Agg(0, "", map[]), jobs, file)
  {
  }

  lemma ChargeKeeps(a: Agg, jobs: seq<Job>, job: Job, file: string)
    requires EntryOk(a, jobs, file) && Reports(job, file)
    ensures EntryOk(Charge(a, job.plat, job.log.value[file]), jobs + [job], file)
  {
    var b := Charge(a, job.plat, job.log.value[file]);
    if job.plat !in a.perPlat { UnmentionedSum(jobs, file, job.plat); }
    forall p ensures p in b.perPlat <==> MentionsOn(jobs + [job], file, p)
             ensures p in b.perPlat ==> b.perPlat[p] == Sum(jobs + [job], file, p) && b.perPlat[p] <= b.maxMs
    {
      SumStep(jobs, job, file, p);
    }
  }

  /** A platform that only draws level with the slowest so far does not take its place. */
  lemma ChargeLevel(a: Agg, jobs: seq<Job>, job: Job, file: string)
    requires EntryOk(a, jobs, file) && Reports(job, file)
    ensures Charge(a, job.plat, job.log.value[file]).maxPlat
         == if Sum(jobs + [job], file, job.plat) > a.maxMs then job.plat else a.maxPlat
  {
    SumStep(jobs, job, file, job.plat);
    if job.plat !in a.perPlat { UnmentionedSum(jobs, file, job.plat); }
  }

  lemma UnreportedKeeps(a: Agg, jobs: seq<Job>, job: Job, file: string)
    requires EntryOk(a, jobs, file) && !Reports(job, file)
    ensures EntryOk(a, jobs + [job], file)
  {
    forall p: string
      ensures MentionsOn(jobs + [job], file, p) <==> MentionsOn(jobs, file, p)
      ensures Sum(jobs + [job], file, p) == Sum(jobs, file, p)
    {
      SumStep(jobs, job, file, p);
    }
  }

  // ---------------------------------------------------------------- sixteen workers

  /** The shared variables. `jobs` is all of them; `done` the finished ones, in order of completion. */
  class Aggregator {
    const jobs: seq<Job>
    var queue: seq<Job>
    var fetching: seq<Option<Job>>
    var agg: Table
    ghost var done: seq<Job>

    ghost predicate Valid()
      reads this
    {
      && |fetching| == 16
      && multiset(queue) + InFlight(fetching) + multiset(done) == multiset(jobs)
      && TableOk(agg, done)
    }

    constructor (jobs: seq<Job>)
      ensures Valid() && this.jobs == jobs && queue == jobs && done == [] && agg == map[]
      ensures forall w :: 0 <= w < 16 ==> fetching[w].None?
    {
      this.jobs, queue, agg, done := jobs, jobs, map[], [];
      fetching := seq(16, _ => None);
      new;
      NothingInFlight(fetching);
    }

    /** Worker `w` takes a job and starts fetching; false if it returns because there is none. */
    method Take(w: nat) returns (took: bool)
      requires Valid() && w < 16 && fetching[w].None?
      modifies this`queue, this`fetching
      ensures Valid() && took == (old(queue) != [])
      ensures took ==> queue == old(queue)[1..] && fetching == old(fetching)[w := Some(old(queue)[0])]
      ensures !took ==> queue == old(queue) && fetching == old(fetching)
    {
      if queue == [] { return false; }
      ReplaceInFlight(fetching, w, Some(queue[0]));
      TakeCounts(queue, InFlight(fetching), InFlight(fetching[w := Some(queue[0])]), multiset(done));
      fetching := fetching[w := Some(queue[0])];
      queue := queue[1..];
      took := true;
    }

    /** The log of worker `w` has arrived, or failed to. */
    method Finish(w: nat)
      requires Valid() && w < 16 && fetching[w].Some?
      modifies this`fetching, this`agg, this`done
      ensures Valid()
      ensures fetching == old(fetching)[w := None] && done == old(done) + [old(fetching)[w].value]
    {
      var job := fetching[w].value;
      ReplaceInFlight(fetching, w, None);
      FinishCounts(multiset(queue), InFlight(fetching), InFlight(fetching[w := None]), done, job);
      if job.log.Some? {
        var r := Fold(agg, job.plat, job.log.value);
        FoldKeeps(agg, done, job, r);
        agg := r;
      } else {
        FailedKeeps(agg, done, job);
      }
      fetching := fetching[w := None];
      done := done + [job];
    }
  }

  function One(j: Option<Job>): multiset<Job> {
    if j.Some? then multiset{j.value} else multiset{}
  }

  ghost function InFlight(fetching: seq<Option<Job>>): multiset<Job> {
    if fetching == [] then multiset{}
    else InFlight(fetching[..|fetching| - 1]) + One(fetching[|fetching| - 1])
  }

  lemma {:induction false} NothingInFlight(fetching: seq<Option<Job>>)
    ensures (forall w :: 0 <= w < |fetching| ==> fetching[w].None?) ==> InFlight(fetching) == multiset{}
  {
    if fetching != [] { NothingInFlight(fetching[..|fetching| - 1]); }
  }

  lemma Swap(a: multiset<Job>, f: multiset<Job>, o: multiset<Job>, j: multiset<Job>)
    requires o <= a
    ensures (a - o + j) + f == (a + f) - o + j && o <= a + f
  {
  }

  lemma SwapLast(a: multiset<Job>, o: multiset<Job>, j: multiset<Job>)
    ensures o <= a + o && a + j == (a + o) - o + j
  {
  }

  lemma InFlightPush(fetching: seq<Option<Job>>, j: Option<Job>)
    ensures InFlight(fetching + [j]) == InFlight(fetching) + One(j)
  {
    assert (fetching + [j])[..|fetching|] == fetching;
  }

  lemma {:induction false} ReplaceInFlight(fetching: seq<Option<Job>>, w: nat, j: Option<Job>)
    requires w < |fetching|
    ensures One(fetching[w]) <= InFlight(fetching)
    ensures InFlight(fetching[w := j]) == InFlight(fetching) - One(fetching[w]) + One(j)
  {
    var n := |fetching| - 1;
    var h, last := fetching[..n], fetching[n];
    assert fetching == h + [last];
    InFlightPush(h, last);
    if w == n {
      assert fetching[w := j] == h + [j];
      InFlightPush(h, j);
      SwapLast(InFlight(h), One(last), One(j));
    } else {
      ReplaceInFlight(h, w, j);
      assert fetching[w := j] == h[w := j] + [last];
      InFlightPush(h[w := j], last);
      Swap(InFlight(h), One(last), One(h[w]), One(j));
    }
  }

  lemma TakeCounts(q: seq<Job>, i: multiset<Job>, i': multiset<Job>, d: multiset<Job>)
    requires q != [] && i' == i + multiset{q[0]}
    ensures multiset(q[1..]) + i' + d == multiset(q) + i + d
  {
    assert q == [q[0]] + q[1..];
    assert multiset(q) == multiset{q[0]} + multiset(q[1..]);
  }

  lemma FinishCounts(q: multiset<Job>, i: multiset<Job>, i': multiset<Job>, done: seq<Job>, job: Job)
    requires multiset{job} <= i && i' == i - multiset{job}
    ensures q + i' + multiset(done + [job]) == q + i + multiset(done)
  {
    assert multiset(done + [job]) == multiset(done) + multiset{job};
    assert i' + multiset{job} == i;
  }

  lemma FoldKeeps(agg: Table, done: seq<Job>, job: Job, r: Table)
    requires TableOk(agg, done) && job.log.Some?
    requires Folded(r, agg, job.plat, job.log.value, job.log.value.Keys)
    ensures TableOk(r, done + [job])
  {
    forall file: string
      ensures file in r <==> Mentions(done + [job], file)
      ensures file in r ==> EntryOk(r[file], done + [job], file)
    {
      SumStep(done, job, file, job.plat);
      if file in job.log.value {
        if file !in agg { NoEntryYet(done, file); }
        ChargeKeeps(Entry(agg, file), done, job, file);
      } else if file in agg {
        UnreportedKeeps(agg[file], done, job, file);
      }
    }
  }

  lemma FailedKeeps(agg: Table, done: seq<Job>, job: Job)
    requires TableOk(agg, done) && job.log.None?
    ensures TableOk(agg, done + [job])
  {
    forall file: string
      ensures file in agg <==> Mentions(done + [job], file)
      ensures file in agg ==> EntryOk(agg[file], done + [job], file)
    {
      SumStep(done, job, file, job.plat);
      if file in agg { UnreportedKeeps(agg[file], done, job, file); }
    }
  }

  /** Every schedule of the 16 workers ends, with all jobs done once and their table. */
  method RunAll(jobs: seq<Job>) returns (agg: Table)
    ensures TableOk(agg, jobs)
  {
    var a := new Aggregator(jobs);
    while a.queue != [] || exists w :: 0 <= w < 16 && a.fetching[w].Some?
      invariant fresh(a) && a.Valid() && a.jobs == jobs
      decreases 2 * |a.queue| + |InFlight(a.fetching)|
    {
      var w :| 0 <= w < 16 && (a.fetching[w].Some? || a.queue != []);
      if a.fetching[w].Some? {
        ReplaceInFlight(a.fetching, w, None);
        a.Finish(w);
      } else {
        ReplaceInFlight(a.fetching, w, Some(a.queue[0]));
        var _ := a.Take(w);
      }
    }
    NothingInFlight(a.fetching);
    TablePermuted(a.agg, a.done, jobs);
    agg := a.agg;
  }

  // ---------------------------------------------------------------- order does not matter

  lemma {:induction false} SumAppend(a: seq<Job>, b: seq<Job>, file: string, plat: string)
    ensures Sum(a + b, file, plat) == Sum(a, file, plat) + Sum(b, file, plat)
  {
    if b == [] {
      assert a + b == a;
    } else {
      assert (a + b)[..|a + b| - 1] == a + b[..|b| - 1];
      SumAppend(a, b[..|b| - 1], file, plat);
    }
  }

  lemma SumWithout(b: seq<Job>, k: nat, file: string, plat: string)
    requires k < |b|
    ensures Sum(b, file, plat) == Sum(b[..k] + b[k + 1..] + [b[k]], file, plat)
    ensures multiset(b) == multiset(b[..k] + b[k + 1..]) + multiset{b[k]}
  {
    var l, r, job := b[..k], b[k + 1..], b[k];
    assert b == l + [job] + r;
    SumAppend(l + [job], r, file, plat);
    SumAppend(l, r, file, plat);
    SumStep(l, job, file, plat);
    SumStep(l + r, job, file, plat);
  }

  lemma SameRest(a: multiset<Job>, b: multiset<Job>, j: multiset<Job>)
    requires a + j == b + j
    ensures a == b
  {
    assert a == (a + j) - j && b == (b + j) - j;
  }

  lemma {:induction false} SumPermuted(a: seq<Job>, b: seq<Job>, file: string, plat: string)
    requires multiset(a) == multiset(b)
    ensures Sum(a, file, plat) == Sum(b, file, plat)
    decreases |a|
  {
    if a == [] {
      assert |multiset(b)| == 0;
    } else {
      var h, job := a[..|a| - 1], a[|a| - 1];
      assert a == h + [job];
      assert job in multiset(b);
      var k :| 0 <= k < |b| && b[k] == job;
      var rest := b[..k] + b[k + 1..];
      SumWithout(b, k, file, plat);
      SameRest(multiset(h), multiset(rest), multiset{job});
      SumPermuted(h, rest, file, plat);
      SumStep(h, job, file, plat);
      SumStep(rest, job, file, plat);
    }
  }

  lemma MentionsPermuted(a: seq<Job>, b: seq<Job>, file: string, plat: string)
    requires multiset(a) == multiset(b)
    ensures MentionsOn(a, file, plat) ==> MentionsOn(b, file, plat)
    ensures Mentions(a, file) ==> Mentions(b, file)
  {
    forall i | 0 <= i < |a| ensures a[i] in b { assert a[i] in multiset(a); }
  }

  /** Two runs of the same jobs, whatever their schedules, agree on every sum and every maximum. */
  lemma OrderDoesNotMatter(s: Table, t: Table, a: seq<Job>, b: seq<Job>)
    requires multiset(a) == multiset(b) && TableOk(s, a) && TableOk(t, b)
    ensures s.Keys == t.Keys
    ensures forall file :: file in s ==> s[file].perPlat == t[file].perPlat && s[file].maxMs == t[file].maxMs
  {
    forall file: string ensures file in s <==> file in t {
      MentionsPermuted(a, b, file, "");
      MentionsPermuted(b, a, file, "");
    }
    forall file | file in s ensures s[file].perPlat == t[file].perPlat && s[file].maxMs == t[file].maxMs {
      EntriesAgree(s[file], t[file], a, b, file);
    }
  }

  lemma EntriesAgree(x: Agg, y: Agg, a: seq<Job>, b: seq<Job>, file: string)
    requires multiset(a) == multiset(b) && EntryOk(x, a, file) && EntryOk(y, b, file)
    ensures x.perPlat == y.perPlat && x.maxMs == y.maxMs
  {
    forall p: string ensures p in x.perPlat <==> p in y.perPlat
                     ensures p in x.perPlat ==> x.perPlat[p] == y.perPlat[p]
    {
      MentionsPermuted(a, b, file, p);
      MentionsPermuted(b, a, file, p);
      SumPermuted(a, b, file, p);
    }
  }

  /** A table of some jobs is the table of the same jobs in any order. */
  lemma TablePermuted(t: Table, a: seq<Job>, b: seq<Job>)
    requires multiset(a) == multiset(b) && TableOk(t, a)
    ensures TableOk(t, b)
  {
    forall file: string ensures (file in t <==> Mentions(b, file)) && (file in t ==> EntryOk(t[file], b, file)) {
      MentionsPermuted(a, b, file, "");
      MentionsPermuted(b, a, file, "");
      if file in t { EntryPermuted(t[file], a, b, file); }
    }
  }

  lemma EntryPermuted(x: Agg, a: seq<Job>, b: seq<Job>, file: string)
    requires multiset(a) == multiset(b) && EntryOk(x, a, file)
    ensures EntryOk(x, b, file)
  {
    forall p: string ensures MentionsOn(a, file, p) <==> MentionsOn(b, file, p)
                     ensures Sum(a, file, p) == Sum(b, file, p)
    {
      MentionsPermuted(a, b, file, p);
      MentionsPermuted(b, a, file, p);
      SumPermuted(a, b, file, p);
    }
  }
}
