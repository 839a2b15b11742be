/**
 * `download_media`: one user's stories phase and posts phase, with a cancel
 * checkpoint before the work and before each enabled phase, a progress
 * report after each phase, failures caught per phase, and a `finally` that
 * goes back to the original working directory and reports 100.
 *
 * What the function does to the outside world is recorded as a sequence of
 * events, in the order it happens. The shared cancel flag is a function from
 * the number of the read to the value seen at that read; the scraping library
 * is a function saying whether the call for a user and phase succeeds.
 */
module Downloader {

  import opened Cookies

  datatype Phase = Stories | Posts

  /** The kinds of message `download_media` sends to its log callback. */
  datatype Note =
    | Starting
    | CancelledBeforeStart
    | CancelledBeforePhase
    | Downloading(phase: Phase)
    | Succeeded(phase: Phase)
    | Failed(phase: Phase)

  datatype Event =
    | ChangeDir(path: string)   // os.chdir
    | Report(step: int)         // progress_callback
    | Log(note: Note)           // log_callback
    | Call(phase: Phase)        // the scraping library is asked for one phase

  /** The value the cancel flag shows at the k-th read. */
  type Flags = nat -> bool

  /** Whether the scraping library completes a phase for a user without raising. */
  type Collaborator = (string, Credentials, Phase) -> bool

  /** What was done, and the number of the next read of the cancel flag. */
  datatype Outcome = Outcome(events: seq<Event>, next: nat)

  /** `int(download_stories) + int(download_posts)` */
  function TotalSteps(stories: bool, posts: bool): (r: nat)
    ensures r == |Enabled(stories, posts)|
  {
    (if stories then 1 else 0) + (if posts then 1 else 0)
  }

  /** The enabled phases, in the order `download_media` attempts them. */
  function Enabled(stories: bool, posts: bool): seq<Phase>
  {
    (if stories then [Stories] else []) + (if posts then [Posts] else [])
  }

  /** One phase that passed its checkpoint: attempted, outcome logged, progress reported. */
  function PhaseRun(user: string, cookies: Credentials, p: Phase, ok: Collaborator,
                    done: nat, total: nat): seq<Event>
    requires 0 < done <= total
  {
    [Log(Downloading(p)), Call(p),
     Log(if ok(user, cookies, p) then Succeeded(p) else Failed(p)),
     Report(done * 100 / total)]
  }

  /** The `try` block of `download_media`. */
  function Attempt(user: string, cookies: Credentials, stories: bool, posts: bool,
                   cancel: Flags, cp: nat, ok: Collaborator): Outcome
  {
    var head := [Log(Starting), Report(0)];
    var total := TotalSteps(stories, posts);
    if cancel(cp) then Outcome(head + [Log(CancelledBeforeStart)], cp + 1)
    else if stories && cancel(cp + 1) then Outcome(head + [Log(CancelledBeforePhase)], cp + 2)
    else
      var first := if stories then PhaseRun(user, cookies, Stories, ok, 1, total) else [];
      var done := if stories then 1 else 0;
      var at := if stories then cp + 2 else cp + 1;
      if posts && cancel(at) then Outcome(head + first + [Log(CancelledBeforePhase)], at + 1)
      else
        var second := if posts then PhaseRun(user, cookies, Posts, ok, done + 1, total) else [];
        Outcome(head + first + second, if posts then at + 1 else at)
  }

  /** `download_media` as a whole: change into the download directory, the `try` block, the `finally`. */
  function Media(user: string, cookies: Credentials, path: string, cwd: string,
                 stories: bool, posts: bool, cancel: Flags, cp: nat, ok: Collaborator): Outcome
  {
    var body := Attempt(user, cookies, stories, posts, cancel, cp, ok);
    Outcome([ChangeDir(path)] + body.events + [ChangeDir(cwd), Report(100)], body.next)
  }

  /**
   * `download_media(username, cookies, download_path, ...)`, where `cwd` is the
   * working directory at the call and `cp` the number of the first read of the
   * cancel flag; `next` is the number of the first read after it returns.
   */
  method DownloadMedia(user: string, cookies: Credentials, path: string, cwd: string,
                       stories: bool, posts: bool, cancel: Flags, cp: nat, ok: Collaborator)
    returns (events: seq<Event>, next: nat)
    ensures Outcome(events, next) == Media(user, cookies, path, cwd, stories, posts, cancel, cp, ok)
    ensures events[0] == ChangeDir(path) && events[|events| - 2] == ChangeDir(cwd)
    ensures events[|events| - 1] == Report(100)
  {
    events := [ChangeDir(path)];
    var body, after := TryBlock(user, cookies, stories, posts, cancel, cp, ok);
    // finally:
    events := events + body + [ChangeDir(cwd), Report(100)];
    next := after;
  }

  /** The `try` block, with its early returns at the cancel checkpoints. */
  method TryBlock(user: string, cookies: Credentials, stories: bool, posts: bool,
                  cancel: Flags, cp: nat, ok: Collaborator)
    returns (events: seq<Event>, next: nat)
    ensures Outcome(events, next) == Attempt(user, cookies, stories, posts, cancel, cp, ok)
  {
    events := [Log(Starting), Report(0)];
    next := cp;
    var isSet := cancel(next);
    next := next + 1;
    if isSet {
      events := events + [Log(CancelledBeforeStart)];
      return;
    }
    var total := TotalSteps(stories, posts);
    var current := 0;
    if stories {
      isSet := cancel(next);
      next := next + 1;
      if isSet {
        events := events + [Log(CancelledBeforePhase)];
        return;
      }
      current := current + 1;
      var run := DownloadPhase(user, cookies, Stories, ok, current, total);
      events := events + run;
    }
    ghost var first := events;
    if posts {
      isSet := cancel(next);
      next := next + 1;
      if isSet {
        events := events + [Log(CancelledBeforePhase)];
        return;
      }
      current := current + 1;
      var run := DownloadPhase(user, cookies, Posts, ok, current, total);
      events := events + run;
    }
    assert events == first + (if posts then PhaseRun(user, cookies, Posts, ok, current, total) else []);
  }

  /**
   * One phase past its checkpoint: announced, the scraping library called,
   * its success or failure logged (an exception is caught, never raised), and
   * the completed step reported as `done · 100 / total`, truncated.
   */
  method DownloadPhase(user: string, cookies: Credentials, p: Phase, ok: Collaborator, done: nat, total: nat)
    returns (events: seq<Event>)
    requires 0 < done <= total
    ensures events == PhaseRun(user, cookies, p, ok, done, total)
  {
    events := [Log(Downloading(p)), Call(p)];
    var succeeded := ok(user, cookies, p);
    events := events + [Log(if succeeded then Succeeded(p) else Failed(p))];
    events := events + [Report(done * 100 / total)];
  }


  // ----- views of an event sequence -----

  /** The values passed to the progress callback, in order. */
  function Reports(es: seq<Event>): seq<int>
  {
    if es == [] then []
    else (if es[0].Report? then [es[0].step] else []) + Reports(es[1..])
  }

  /** The phases the scraping library was asked for, in order. */
  function Calls(es: seq<Event>): seq<Phase>
  {
    if es == [] then []
    else (if es[0].Call? then [es[0].phase] else []) + Calls(es[1..])
  }

  /** The directories changed into, in order. */
  function Dirs(es: seq<Event>): seq<string>
  {
    if es == [] then []
    else (if es[0].ChangeDir? then [es[0].path] else []) + Dirs(es[1..])
  }

  lemma ViewsAppend(a: seq<Event>, b: seq<Event>)
    ensures Reports(a + b) == Reports(a) + Reports(b)
    ensures Calls(a + b) == Calls(a) + Calls(b)
    ensures Dirs(a + b) == Dirs(a) + Dirs(b)
  {
    ReportsAppend(a, b);
    CallsAppend(a, b);
    DirsAppend(a, b);
  }

  lemma {:induction false} ReportsAppend(a: seq<Event>, b: seq<Event>)
    ensures Reports(a + b) == Reports(a) + Reports(b)
  {
    if a != [] {
      assert (a + b)[1..] == a[1..] + b;
      ReportsAppend(a[1..], b);
    } else {
      assert a + b == b;
    }
  }

  lemma {:induction false} CallsAppend(a: seq<Event>, b: seq<Event>)
    ensures Calls(a + b) == Calls(a) + Calls(b)
  {
    if a != [] {
      assert (a + b)[1..] == a[1..] + b;
      CallsAppend(a[1..], b);
    } else {
      assert a + b == b;
    }
  }

  lemma {:induction false} DirsAppend(a: seq<Event>, b: seq<Event>)
    ensures Dirs(a + b) == Dirs(a) + Dirs(b)
  {
    if a != [] {
      assert (a + b)[1..] == a[1..] + b;
      DirsAppend(a[1..], b);
    } else {
      assert a + b == b;
    }
  }


  predicate NonDecreasing(s: seq<int>)
  {
    forall i, j :: 0 <= i < j < |s| ==> s[i] <= s[j]
  }

  /** `⌊k·100/total⌋` for the phases completed so far, k = 1..c. */
  function StepValues(c: nat, total: nat): (r: seq<int>)
    requires c <= total
    ensures |r| == c
  {
    if c == 0 then [] else StepValues(c - 1, total) + [c * 100 / total]
  }

  // ----- properties of download_media -----

  /**
   * What the `try` block shows: the phases asked for are the enabled ones up
   * to the first checkpoint that saw the flag, and the reports are 0 followed
   * by one `⌊k·100/T⌋` per completed phase.
   */
  lemma {:induction false} AttemptViews(user: string, cookies: Credentials, stories: bool, posts: bool,
                                        cancel: Flags, cp: nat, ok: Collaborator)
    ensures var a := Attempt(user, cookies, stories, posts, cancel, cp, ok);
            Calls(a.events) <= Enabled(stories, posts) &&
            Reports(a.events) == [0] + StepValues(|Calls(a.events)|, TotalSteps(stories, posts)) &&
            Dirs(a.events) == []
  {
    var total := TotalSteps(stories, posts);
    var head: seq<Event> := [Log(Starting), Report(0)];
    var first := if stories then PhaseRun(user, cookies, Stories, ok, 1, total) else [];
    var done := if stories then 1 else 0;
    var at := if stories then cp + 2 else cp + 1;
    var second := if posts then PhaseRun(user, cookies, Posts, ok, done + 1, total) else [];
    HeadViews();
    assert StepValues(0, total) == [];
    if cancel(cp) {
      StopViews(head, CancelledBeforeStart);
    } else if stories && cancel(cp + 1) {
      StopViews(head, CancelledBeforePhase);
    } else {
      FirstViews(user, cookies, stories, posts, ok);
      if posts && cancel(at) {
        StopViews(head + first, CancelledBeforePhase);
      } else {
        SecondViews(user, cookies, stories, posts, ok);
      }
    }
  }

  lemma HeadViews()
    ensures Reports([Log(Starting), Report(0)]) == [0]
    ensures Calls([Log(Starting), Report(0)]) == []
    ensures Dirs([Log(Starting), Report(0)]) == []
  {
    var es: seq<Event> := [Log(Starting), Report(0)];
    assert es[1..] == [Report(0)] && es[1..][1..] == [];
    assert Reports(es[1..][1..]) == [] && Calls(es[1..][1..]) == [] && Dirs(es[1..][1..]) == [];
    assert Reports(es[1..]) == [0] && Calls(es[1..]) == [] && Dirs(es[1..]) == [];
  }

  /** A cancellation message adds nothing to the views. */
  lemma StopViews(es: seq<Event>, note: Note)
    ensures Reports(es + [Log(note)]) == Reports(es)
    ensures Calls(es + [Log(note)]) == Calls(es)
    ensures Dirs(es + [Log(note)]) == Dirs(es)
  {
    var t: seq<Event> := [Log(note)];
    assert t[1..] == [];
    assert Reports(t) == [];
    assert Calls(t) == [];
    assert Dirs(t) == [];
    ReportsAppend(es, t);
    CallsAppend(es, t);
    DirsAppend(es, t);
  }

  lemma FirstViews(user: string, cookies: Credentials, stories: bool, posts: bool, ok: Collaborator)
    ensures var total := TotalSteps(stories, posts);
            var es := [Log(Starting), Report(0)] +
                      (if stories then PhaseRun(user, cookies, Stories, ok, 1, total) else []);
            Calls(es) == (if stories then [Stories] else []) &&
            Reports(es) == [0] + StepValues(if stories then 1 else 0, total) &&
            Dirs(es) == []
  {
    var total := TotalSteps(stories, posts);
    var head: seq<Event> := [Log(Starting), Report(0)];
    var first := if stories then PhaseRun(user, cookies, Stories, ok, 1, total) else [];
    HeadViews();
    if stories {
      PhaseViews(user, cookies, Stories, ok, 1, total);
      assert StepValues(1, total) == [100 / total] by {
        assert StepValues(0, total) == [];
      }
    } else {
      assert first == [];
    }
    assert Calls(head + first) == (if stories then [Stories] else []) by {
      CallsAppend(head, first);
    }
    assert Reports(head + first) == [0] + StepValues(if stories then 1 else 0, total) by {
      ReportsAppend(head, first);
    }
    assert Dirs(head + first) == [] by {
      DirsAppend(head, first);
    }
  }

  lemma SecondViews(user: string, cookies: Credentials, stories: bool, posts: bool, ok: Collaborator)
    ensures var total := TotalSteps(stories, posts);
            var done := if stories then 1 else 0;
            var es := [Log(Starting), Report(0)] +
                      (if stories then PhaseRun(user, cookies, Stories, ok, 1, total) else []) +
                      (if posts then PhaseRun(user, cookies, Posts, ok, done + 1, total) else []);
            Calls(es) == Enabled(stories, posts) &&
            Reports(es) == [0] + StepValues(total, total) &&
            Dirs(es) == []
  {
    if posts {
      PostsViews(user, cookies, stories, ok);
    } else {
      FirstViews(user, cookies, stories, posts, ok);
      var first := [Log(Starting), Report(0)] +
                   (if stories then PhaseRun(user, cookies, Stories, ok, 1, TotalSteps(stories, posts)) else []);
      assert first + [] == first;
    }
  }

  /** `SecondViews` when posts are enabled. */
  lemma PostsViews(user: string, cookies: Credentials, stories: bool, ok: Collaborator)
    ensures var total := TotalSteps(stories, true);
            var done := if stories then 1 else 0;
            var es := [Log(Starting), Report(0)] +
                      (if stories then PhaseRun(user, cookies, Stories, ok, 1, total) else []) +
                      PhaseRun(user, cookies, Posts, ok, done + 1, total);
            Calls(es) == Enabled(stories, true) &&
            Reports(es) == [0] + StepValues(total, total) &&
            Dirs(es) == []
  {
    if stories {
      BothViews(user, cookies, ok);
      assert StepValues(2, 2) == [50, 100] by {
        assert StepValues(1, 2) == [50] by {
          assert StepValues(0, 2) == [];
        }
      }
    } else {
      PostsOnlyViews(user, cookies, ok);
      assert StepValues(1, 1) == [100] by {
        assert StepValues(0, 1) == [];
      }
    }
  }

  /** Only posts, past its checkpoint: the reports are 0, 100. */
  lemma PostsOnlyViews(user: string, cookies: Credentials, ok: Collaborator)
    ensures var es := [Log(Starting), Report(0)] + [] + PhaseRun(user, cookies, Posts, ok, 1, 1);
            Calls(es) == [Posts] && Reports(es) == [0, 100] && Dirs(es) == []
  {
    var head := [Log(Starting), Report(0)];
    HeadViews();
    PhaseViews(user, cookies, Posts, ok, 1, 1);
    Unchanged(head);
    JoinSteps(head, PhaseRun(user, cookies, Posts, ok, 1, 1), [], [Posts], [0], 100);
  }

  lemma Unchanged(es: seq<Event>)
    ensures es + [] == es
  {
  }

  /** Both phases past their checkpoints: the reports are 0, 50, 100. */
  lemma BothViews(user: string, cookies: Credentials, ok: Collaborator)
    ensures var es := [Log(Starting), Report(0)] + PhaseRun(user, cookies, Stories, ok, 1, 2) +
                      PhaseRun(user, cookies, Posts, ok, 2, 2);
            Calls(es) == [Stories, Posts] && Reports(es) == [0, 50, 100] && Dirs(es) == []
  {
    var head := [Log(Starting), Report(0)];
    var first := PhaseRun(user, cookies, Stories, ok, 1, 2);
    var second := PhaseRun(user, cookies, Posts, ok, 2, 2);
    HeadViews();
    PhaseViews(user, cookies, Stories, ok, 1, 2);
    JoinSteps(head, first, [], [Stories], [0], 50);
    PhaseViews(user, cookies, Posts, ok, 2, 2);
    JoinSteps(head + first, second, [Stories], [Posts], [0, 50], 100);
  }


  lemma JoinSteps(first: seq<Event>, second: seq<Event>, c1: seq<Phase>, c2: seq<Phase>, r1: seq<int>, r2: int)
    requires Calls(first) == c1 && Calls(second) == c2 && Reports(first) == r1 && Reports(second) == [r2]
    requires Dirs(first) == [] && Dirs(second) == []
    ensures Calls(first + second) == c1 + c2 && Reports(first + second) == r1 + [r2] && Dirs(first + second) == []
  {
    ViewsAppend(first, second);
  }





  /**
   * The progress reports of one user: 0 first, then `⌊k·100/T⌋` after the k-th
   * completed phase, then 100 from the `finally`, whatever the cancel flag and
   * the scraping library do.
   */
  lemma MediaReports(user: string, cookies: Credentials, path: string, cwd: string,
                     stories: bool, posts: bool, cancel: Flags, cp: nat, ok: Collaborator)
    ensures var es := Media(user, cookies, path, cwd, stories, posts, cancel, cp, ok).events;
            Calls(es) <= Enabled(stories, posts) &&
            Reports(es) == [0] + StepValues(|Calls(es)|, TotalSteps(stories, posts)) + [100] &&
            Dirs(es) == [path, cwd]
  {
    var a := Attempt(user, cookies, stories, posts, cancel, cp, ok);
    AttemptViews(user, cookies, stories, posts, cancel, cp, ok);
    FinallyViews(path, cwd, a.events);
  }

  /** The views of a `try` block wrapped in the changes of directory and the final report. */
  lemma FinallyViews(path: string, cwd: string, body: seq<Event>)
    ensures var es := [ChangeDir(path)] + body + [ChangeDir(cwd), Report(100)];
            Calls(es) == Calls(body) && Reports(es) == Reports(body) + [100] &&
            Dirs(es) == [path] + Dirs(body) + [cwd]
  {
    var h: seq<Event> := [ChangeDir(path)];
    var t: seq<Event> := [ChangeDir(cwd), Report(100)];
    assert h[1..] == [] && t[1..] == [Report(100)] && t[1..][1..] == [];
    assert Reports(t[1..][1..]) == [] && Calls(t[1..][1..]) == [] && Dirs(t[1..][1..]) == [];
    assert Reports(h[1..]) == [] && Calls(h[1..]) == [] && Dirs(h[1..]) == [];
    assert Reports(t[1..]) == [100] && Calls(t[1..]) == [] && Dirs(t[1..]) == [];
    assert Calls(h + body + t) == Calls(body) by {
      CallsAppend(h, body);
      CallsAppend(h + body, t);
    }
    assert Reports(h + body + t) == Reports(body) + [100] by {
      ReportsAppend(h, body);
      ReportsAppend(h + body, t);
    }
    assert Dirs(h + body + t) == [path] + Dirs(body) + [cwd] by {
      DirsAppend(h, body);
      DirsAppend(h + body, t);
    }
  }

  lemma PhaseViews(user: string, cookies: Credentials, p: Phase, ok: Collaborator, done: nat, total: nat)
    requires 0 < done <= total
    ensures Reports(PhaseRun(user, cookies, p, ok, done, total)) == [done * 100 / total]
    ensures Calls(PhaseRun(user, cookies, p, ok, done, total)) == [p]
    ensures Dirs(PhaseRun(user, cookies, p, ok, done, total)) == []
  {
    var es := PhaseRun(user, cookies, p, ok, done, total);
    var t1, t2, t3 := es[1..], es[2..], es[3..];
    assert t3 == [es[3]] && t3[1..] == [] && t2[1..] == t3 && t1[1..] == t2 && es[1..] == t1;
    assert Reports(t3) == [done * 100 / total] && Calls(t3) == [] && Dirs(t3) == [];
    assert Reports(t2) == [done * 100 / total] && Calls(t2) == [] && Dirs(t2) == [];
    assert Reports(t1) == [done * 100 / total] && Calls(t1) == [p] && Dirs(t1) == [];
  }

  /** Every value reported lies in [0, 100], the first is 0, the last 100, and they never decrease. */
  lemma {:induction false} ReportsShape(c: nat, total: nat)
    requires c <= total
    ensures var r := [0] + StepValues(c, total) + [100];
            NonDecreasing(r) && r[0] == 0 && r[|r| - 1] == 100 &&
            forall k :: 0 <= k < |r| ==> 0 <= r[k] <= 100
  {
    var r := [0] + StepValues(c, total) + [100];
    forall k | 1 <= k <= c ensures 0 <= r[k] <= 100 && r[k] == k * 100 / total {
      StepValuesAt(c, total, k);
      DivBounds(k * 100, total);
    }
    forall i, j | 0 <= i < j < |r| ensures r[i] <= r[j] {
      if 1 <= i && j <= c {
        DivMonotone(i * 100, j * 100, total);
      }
    }
  }

  lemma {:induction false} StepValuesAt(c: nat, total: nat, k: nat)
    requires c <= total && 1 <= k <= c
    ensures StepValues(c, total)[k - 1] == k * 100 / total
  {
    if k < c {
      StepValuesAt(c - 1, total, k);
    }
  }

  lemma DivBounds(a: int, total: nat)
    requires total > 0 && 0 <= a <= total * 100
    ensures 0 <= a / total <= 100
  {
  }

  lemma DivMonotone(a: int, b: int, total: nat)
    requires total > 0 && a <= b
    ensures a / total <= b / total
  {
    var qa, qb := a / total, b / total;
    if qa > qb {
      assert b == total * qb + b % total && b % total < total;
      assert a == total * qa + a % total && a % total >= 0;
      MulMonotone(total, qb + 1, qa);
      assert false;
    }
  }

  lemma MulMonotone(d: nat, x: int, y: int)
    requires x <= y
    ensures d * x <= d * y
  {
    assert d * y - d * x == d * (y - x);
  }

  /** Cancel checkpoints of the `try` block; see `MediaCheckpoints`. */
  lemma AttemptCheckpoints(user: string, cookies: Credentials, stories: bool, posts: bool,
                           cancel: Flags, cp: nat, ok: Collaborator)
    ensures var a := Attempt(user, cookies, stories, posts, cancel, cp, ok);
            var calls := Calls(a.events);
            calls <= Enabled(stories, posts) &&
            |calls| == (if !cancel(a.next - 1) then a.next - cp - 1
                        else if a.next == cp + 1 then 0 else a.next - cp - 2) &&
            cp < a.next <= cp + 1 + |Enabled(stories, posts)| &&
            (forall j :: cp <= j < a.next - 1 ==> !cancel(j)) &&
            (calls != Enabled(stories, posts) ==> cancel(a.next - 1)) &&
            (cancel(a.next - 1) && Enabled(stories, posts) != [] ==> calls != Enabled(stories, posts)) &&
            (calls == Enabled(stories, posts) ==> a.next == cp + 1 + |Enabled(stories, posts)|)
  {
    var total := TotalSteps(stories, posts);
    var head: seq<Event> := [Log(Starting), Report(0)];
    var first := if stories then PhaseRun(user, cookies, Stories, ok, 1, total) else [];
    var at := if stories then cp + 2 else cp + 1;
    var a := Attempt(user, cookies, stories, posts, cancel, cp, ok);
    AttemptViews(user, cookies, stories, posts, cancel, cp, ok);
    HeadViews();
    if cancel(cp) {
      assert a == Outcome(head + [Log(CancelledBeforeStart)], cp + 1);
      StopViews(head, CancelledBeforeStart);
    } else if stories && cancel(cp + 1) {
      assert a == Outcome(head + [Log(CancelledBeforePhase)], cp + 2);
      StopViews(head, CancelledBeforePhase);
    } else {
      FirstViews(user, cookies, stories, posts, ok);
      if posts && cancel(at) {
        assert a == Outcome(head + first + [Log(CancelledBeforePhase)], at + 1);
        StopViews(head + first, CancelledBeforePhase);
      } else {
        var second := if posts then PhaseRun(user, cookies, Posts, ok, (if stories then 1 else 0) + 1, total) else [];
        assert a == Outcome(head + first + second, if posts then at + 1 else at);
        SecondViews(user, cookies, stories, posts, ok);
      }
    }
  }

  /** The views of `download_media` are those of its `try` block, between the two directory changes and the final 100. */
  lemma MediaViews(user: string, cookies: Credentials, path: string, cwd: string,
                   stories: bool, posts: bool, cancel: Flags, cp: nat, ok: Collaborator)
    ensures var a := Attempt(user, cookies, stories, posts, cancel, cp, ok);
            var m := Media(user, cookies, path, cwd, stories, posts, cancel, cp, ok);
            m.next == a.next && Calls(m.events) == Calls(a.events) &&
            Reports(m.events) == Reports(a.events) + [100] &&
            Dirs(m.events) == [path] + Dirs(a.events) + [cwd]
  {
    var a := Attempt(user, cookies, stories, posts, cancel, cp, ok);
    FinallyViews(path, cwd, a.events);
  }

  /**
   * Cancel checkpoints: the flag is read once before the work and once before
   * each enabled phase; every read but the last saw it clear; when an enabled
   * phase was skipped the last read saw the flag set, and when the last read
   * saw it set (and some phase was enabled) the phases asked for stop short
   * of the enabled ones.
   */
  lemma MediaCheckpoints(user: string, cookies: Credentials, path: string, cwd: string,
                         stories: bool, posts: bool, cancel: Flags, cp: nat, ok: Collaborator)
    ensures var m := Media(user, cookies, path, cwd, stories, posts, cancel, cp, ok);
            var calls := Calls(m.events);
            calls <= Enabled(stories, posts) &&
            |calls| == (if !cancel(m.next - 1) then m.next - cp - 1
                        else if m.next == cp + 1 then 0 else m.next - cp - 2) &&
            cp < m.next <= cp + 1 + |Enabled(stories, posts)| &&
            (forall j :: cp <= j < m.next - 1 ==> !cancel(j)) &&
            (calls != Enabled(stories, posts) ==> cancel(m.next - 1)) &&
            (cancel(m.next - 1) && Enabled(stories, posts) != [] ==> calls != Enabled(stories, posts)) &&
            (calls == Enabled(stories, posts) ==> m.next == cp + 1 + |Enabled(stories, posts)|)
  {
    AttemptViews(user, cookies, stories, posts, cancel, cp, ok);
    AttemptCheckpoints(user, cookies, stories, posts, cancel, cp, ok);
    MediaViews(user, cookies, path, cwd, stories, posts, cancel, cp, ok);
  }

  /** Failure isolation for the `try` block; see `MediaIsolation`. */
  lemma AttemptIsolation(user: string, cookies: Credentials, stories: bool, posts: bool,
                         cancel: Flags, cp: nat, ok: Collaborator, ok': Collaborator)
    ensures var a := Attempt(user, cookies, stories, posts, cancel, cp, ok);
            var a' := Attempt(user, cookies, stories, posts, cancel, cp, ok');
            a.next == a'.next && Calls(a.events) == Calls(a'.events) &&
            Reports(a.events) == Reports(a'.events) && Dirs(a.events) == Dirs(a'.events)
  {
    var total := TotalSteps(stories, posts);
    var head: seq<Event> := [Log(Starting), Report(0)];
    var first := if stories then PhaseRun(user, cookies, Stories, ok, 1, total) else [];
    var first' := if stories then PhaseRun(user, cookies, Stories, ok', 1, total) else [];
    var at := if stories then cp + 2 else cp + 1;
    if !cancel(cp) && !(stories && cancel(cp + 1)) {
      FirstViews(user, cookies, stories, posts, ok);
      FirstViews(user, cookies, stories, posts, ok');
      if posts && cancel(at) {
        StopViews(head + first, CancelledBeforePhase);
        StopViews(head + first', CancelledBeforePhase);
      } else {
        SecondViews(user, cookies, stories, posts, ok);
        SecondViews(user, cookies, stories, posts, ok');
      }
    }
    AttemptViews(user, cookies, stories, posts, cancel, cp, ok);
    AttemptViews(user, cookies, stories, posts, cancel, cp, ok');
  }

  /**
   * Failure isolation: whether the scraping library succeeds changes only the
   * log messages; the progress reports, the phases asked for, the directory
   * changes and the reads of the cancel flag are the same.
   */
  lemma MediaIsolation(user: string, cookies: Credentials, path: string, cwd: string,
                       stories: bool, posts: bool, cancel: Flags, cp: nat, ok: Collaborator, ok': Collaborator)
    ensures var m := Media(user, cookies, path, cwd, stories, posts, cancel, cp, ok);
            var m' := Media(user, cookies, path, cwd, stories, posts, cancel, cp, ok');
            m.next == m'.next && Calls(m.events) == Calls(m'.events) &&
            Reports(m.events) == Reports(m'.events) && Dirs(m.events) == Dirs(m'.events)
  {
    AttemptIsolation(user, cookies, stories, posts, cancel, cp, ok, ok');
    AttemptViews(user, cookies, stories, posts, cancel, cp, ok);
    AttemptViews(user, cookies, stories, posts, cancel, cp, ok');
    MediaViews(user, cookies, path, cwd, stories, posts, cancel, cp, ok);
    MediaViews(user, cookies, path, cwd, stories, posts, cancel, cp, ok');
  }

  /**
   * The progress reported for one user starts at 0, ends at 100, stays in
   * [0, 100] and never decreases, on every path.
   */
  lemma MediaProgress(user: string, cookies: Credentials, path: string, cwd: string,
                      stories: bool, posts: bool, cancel: Flags, cp: nat, ok: Collaborator)
    ensures var r := Reports(Media(user, cookies, path, cwd, stories, posts, cancel, cp, ok).events);
            |r| >= 2 && r[0] == 0 && r[|r| - 1] == 100 && NonDecreasing(r) &&
            forall k :: 0 <= k < |r| ==> 0 <= r[k] <= 100
  {
    MediaReports(user, cookies, path, cwd, stories, posts, cancel, cp, ok);
    var es := Media(user, cookies, path, cwd, stories, posts, cancel, cp, ok).events;
    assert |Calls(es)| <= |Enabled(stories, posts)|;
    ReportsShape(|Calls(es)|, TotalSteps(stories, posts));
  }

  /** A log message saying that a checkpoint saw the cancel flag. */
  predicate IsCancelNote(e: Event)
  {
    e == Log(CancelledBeforeStart) || e == Log(CancelledBeforePhase)
  }

  predicate CancelNoted(es: seq<Event>)
  {
    es != [] && (IsCancelNote(es[0]) || CancelNoted(es[1..]))
  }

  lemma {:induction false} CancelNotedAppend(a: seq<Event>, b: seq<Event>)
    ensures CancelNoted(a + b) <==> CancelNoted(a) || CancelNoted(b)
  {
    if a != [] {
      assert (a + b)[0] == a[0] && (a + b)[1..] == a[1..] + b;
      CancelNotedAppend(a[1..], b);
    } else {
      assert a + b == b;
    }
  }

  lemma {:induction false} CancelNotedAt(es: seq<Event>)
    ensures CancelNoted(es) <==> exists k :: 0 <= k < |es| && IsCancelNote(es[k])
  {
    if es != [] {
      CancelNotedAt(es[1..]);
      if CancelNoted(es[1..]) {
        var k :| 0 <= k < |es[1..]| && IsCancelNote(es[1..][k]);
        assert IsCancelNote(es[k + 1]);
      }
      if exists k :: 0 <= k < |es| && IsCancelNote(es[k]) {
        var k :| 0 <= k < |es| && IsCancelNote(es[k]);
        if k > 0 {
          assert IsCancelNote(es[1..][k - 1]);
        }
      }
    }
  }

  lemma PhaseRunQuiet(user: string, cookies: Credentials, p: Phase, ok: Collaborator, done: nat, total: nat)
    requires 0 < done <= total
    ensures !CancelNoted(PhaseRun(user, cookies, p, ok, done, total))
  {
    CancelNotedAt(PhaseRun(user, cookies, p, ok, done, total));
  }

  /**
   * Inside the `try` block a cancellation message appears exactly when the
   * last read of the flag saw it set, and then it is the last event and the
   * only such message.
   */
  lemma AttemptCancelNote(user: string, cookies: Credentials, stories: bool, posts: bool,
                          cancel: Flags, cp: nat, ok: Collaborator)
    ensures var a := Attempt(user, cookies, stories, posts, cancel, cp, ok);
            var n := |a.events|;
            (CancelNoted(a.events) <==> cancel(a.next - 1)) &&
            (CancelNoted(a.events) ==>
               n >= 1 && IsCancelNote(a.events[n - 1]) && !CancelNoted(a.events[..n - 1]))
  {
    var total := TotalSteps(stories, posts);
    var head: seq<Event> := [Log(Starting), Report(0)];
    var first := if stories then PhaseRun(user, cookies, Stories, ok, 1, total) else [];
    var done := if stories then 1 else 0;
    var second := if posts then PhaseRun(user, cookies, Posts, ok, done + 1, total) else [];
    var at := if stories then cp + 2 else cp + 1;
    CancelNotedAt(head);
    if stories {
      PhaseRunQuiet(user, cookies, Stories, ok, 1, total);
    }
    if posts {
      PhaseRunQuiet(user, cookies, Posts, ok, done + 1, total);
    }
    CancelNotedAppend(head, first);
    if cancel(cp) {
      NoteLast(head, Log(CancelledBeforeStart));
    } else if stories && cancel(cp + 1) {
      NoteLast(head, Log(CancelledBeforePhase));
    } else if posts && cancel(at) {
      NoteLast(head + first, Log(CancelledBeforePhase));
    } else {
      CancelNotedAppend(head + first, second);
    }
  }

  lemma NoteLast(pre: seq<Event>, note: Event)
    requires IsCancelNote(note) && !CancelNoted(pre)
    ensures var es := pre + [note];
            CancelNoted(es) && IsCancelNote(es[|es| - 1]) && es[..|es| - 1] == pre
  {
    CancelNotedAppend(pre, [note]);
    assert (pre + [note])[..|pre|] == pre;
  }

  /**
   * Over all of `download_media`: a cancellation message appears exactly when
   * the last read of the flag saw it set; it is the first such message, and
   * after it come only the return to the original directory and the final 100.
   */
  lemma MediaCancelNote(user: string, cookies: Credentials, path: string, cwd: string,
                        stories: bool, posts: bool, cancel: Flags, cp: nat, ok: Collaborator)
    ensures var m := Media(user, cookies, path, cwd, stories, posts, cancel, cp, ok);
            var n := |m.events|;
            (CancelNoted(m.events) <==> cancel(m.next - 1)) &&
            (CancelNoted(m.events) ==>
               n >= 3 && IsCancelNote(m.events[n - 3]) && !CancelNoted(m.events[..n - 3]) &&
               m.events[n - 2..] == [ChangeDir(cwd), Report(100)])
  {
    var a := Attempt(user, cookies, stories, posts, cancel, cp, ok);
    AttemptCancelNote(user, cookies, stories, posts, cancel, cp, ok);
    var tail: seq<Event> := [ChangeDir(cwd), Report(100)];
    var es := [ChangeDir(path)] + a.events + tail;
    CancelNotedAt(tail);
    CancelNotedAt([ChangeDir(path)]);
    CancelNotedAppend([ChangeDir(path)], a.events);
    CancelNotedAppend([ChangeDir(path)] + a.events, tail);
    if CancelNoted(a.events) {
      var n := |a.events|;
      assert es[..|es| - 3] == [ChangeDir(path)] + a.events[..n - 1];
      CancelNotedAppend([ChangeDir(path)], a.events[..n - 1]);
      assert es[|es| - 3] == a.events[n - 1];
      assert es[|es| - 2..] == tail;
    }
  }


  /** With both phases and no cancellation the reports are 0, 50, 100, 100. */
  lemma BothPhasesTrace(user: string, cookies: Credentials, path: string, cwd: string,
                        cancel: Flags, cp: nat, ok: Collaborator)
    requires !cancel(cp) && !cancel(cp + 1) && !cancel(cp + 2)
    ensures Reports(Media(user, cookies, path, cwd, true, true, cancel, cp, ok).events) == [0, 50, 100, 100]
  {
    MediaCheckpoints(user, cookies, path, cwd, true, true, cancel, cp, ok);
    MediaReports(user, cookies, path, cwd, true, true, cancel, cp, ok);
    assert StepValues(2, 2) == [50, 100] by {
      assert StepValues(0, 2) == [];
    }
  }

  /** With one phase and no cancellation the reports are 0, 100, 100. */
  lemma OnePhaseTrace(user: string, cookies: Credentials, path: string, cwd: string,
                      stories: bool, cancel: Flags, cp: nat, ok: Collaborator)
    requires !cancel(cp) && !cancel(cp + 1)
    ensures Reports(Media(user, cookies, path, cwd, stories, !stories, cancel, cp, ok).events) == [0, 100, 100]
  {
    MediaCheckpoints(user, cookies, path, cwd, stories, !stories, cancel, cp, ok);
    MediaReports(user, cookies, path, cwd, stories, !stories, cancel, cp, ok);
    assert StepValues(1, 1) == [100] by {
      assert StepValues(0, 1) == [];
    }
  }

  /** With no phase enabled nothing divides by the zero step count: the reports are 0, 100. */
  lemma NoPhaseTrace(user: string, cookies: Credentials, path: string, cwd: string,
                     cancel: Flags, cp: nat, ok: Collaborator)
    ensures var m := Media(user, cookies, path, cwd, false, false, cancel, cp, ok);
            Reports(m.events) == [0, 100] && Calls(m.events) == [] && m.next == cp + 1
  {
    MediaCheckpoints(user, cookies, path, cwd, false, false, cancel, cp, ok);
    MediaReports(user, cookies, path, cwd, false, false, cancel, cp, ok);
  }
}
