/**
 * `run_downloads`: the batch loop over the chosen users. Before each user the
 * cancel flag is read; if it is set the loop stops. Otherwise the user is
 * announced and `download_media` runs with a progress callback that maps its
 * 0..100 steps into the user's share of the bar. After the loop the flag is
 * read once more to choose between "completed" (and a final 100) and
 * "finished with cancellation" (and no final value).
 */
module Batch {

  import opened Cookies
  import opened Downloader
  import opened Window
  import opened Journal

  /** One event of `download_media` for user `i` of `n`, as the application sees it. */
  function LiftOne(user: string, i: nat, n: nat, e: Event): Effect
    requires i < n
  {
    match e
    case ChangeDir(p) => Chdir(p)
    case Report(s) => SetProgress(Total(i, n, s))
    case Log(note) => Write(Worker(user, note))
    case Call(p) => Invoke(user, p)
  }

  function Lift(user: string, i: nat, n: nat, es: seq<Event>): seq<Effect>
    requires i < n
  {
    seq(|es|, k requires 0 <= k < |es| => LiftOne(user, i, n, es[k]))
  }

  /** The step values of one user mapped into its share of the bar. */
  function Scaled(i: nat, n: nat, steps: seq<int>): seq<real>
    requires i < n
  {
    seq(|steps|, k requires 0 <= k < |steps| => Total(i, n, steps[k]))
  }

  /** The same user paired with each phase, in order. */
  function Pairs(user: string, ps: seq<Phase>): seq<(string, Phase)>
  {
    seq(|ps|, k requires 0 <= k < |ps| => (user, ps[k]))
  }

  /** The effects of the loop from user `i` on, and the number of the next read of the flag. */
  datatype Pass = Pass(effects: seq<Effect>, next: nat)

  function Loop(users: seq<string>, i: nat, cookies: Credentials, path: string, cwd: string,
                stories: bool, posts: bool, cancel: Flags, cp: nat, ok: Collaborator): Pass
    requires i <= |users|
    decreases |users| - i, 1
  {
    if i == |users| then Pass([], cp)
    else if cancel(cp) then Pass([Write(RunCancelled)], cp + 1)
    else Visit(users, i, cookies, path, cwd, stories, posts, cancel, cp + 1, ok)
  }

  /** User `i` announced and downloaded, `cp` being the first read inside `download_media`; then the rest of the loop. */
  function Visit(users: seq<string>, i: nat, cookies: Credentials, path: string, cwd: string,
                 stories: bool, posts: bool, cancel: Flags, cp: nat, ok: Collaborator): Pass
    requires i < |users|
    decreases |users| - i, 0
  {
    var m := Media(users[i], cookies, path, cwd, stories, posts, cancel, cp, ok);
    var rest := Loop(users, i + 1, cookies, path, cwd, stories, posts, cancel, m.next, ok);
    Pass([Write(Processing(i + 1, |users|, users[i]))] + Lift(users[i], i, |users|, m.events) + rest.effects,
         rest.next)
  }

  /** What follows the loop, given the value of the final read of the flag. */
  function Finish(cancelled: bool): seq<Effect>
  {
    if !cancelled then [Write(AllCompleted), SetProgress(100.0)] else [Write(FinishedWithCancel)]
  }

  /** Everything `run_downloads` does, `cp` being the number of its first read of the flag. */
  function Run(users: seq<string>, cookies: Credentials, path: string, cwd: string,
               stories: bool, posts: bool, cancel: Flags, cp: nat, ok: Collaborator): seq<Effect>
  {
    var l := Loop(users, 0, cookies, path, cwd, stories, posts, cancel, cp, ok);
    l.effects + Finish(cancel(l.next))
  }

  // ----- the lifted events of one user -----

  lemma LiftViews(user: string, i: nat, n: nat, es: seq<Event>)
    requires i < n
    ensures Values(Lift(user, i, n, es)) == Scaled(i, n, Reports(es))
    ensures Invocations(Lift(user, i, n, es)) == Pairs(user, Calls(es))
    ensures Processed(Lift(user, i, n, es)) == []
    ensures forall e :: e in Entries(Lift(user, i, n, es)) ==> e.Worker?
  {
    LiftValues(user, i, n, es);
    LiftInvocations(user, i, n, es);
    LiftEntries(user, i, n, es);
  }

  lemma LiftCons(user: string, i: nat, n: nat, es: seq<Event>)
    requires i < n && es != []
    ensures Lift(user, i, n, es) == [LiftOne(user, i, n, es[0])] + Lift(user, i, n, es[1..])
    ensures es == [es[0]] + es[1..]
  {
  }

  lemma {:induction false} LiftValues(user: string, i: nat, n: nat, es: seq<Event>)
    requires i < n
    ensures Values(Lift(user, i, n, es)) == Scaled(i, n, Reports(es))
  {
    if es != [] {
      var e := es[0];
      var f := LiftOne(user, i, n, e);
      LiftValues(user, i, n, es[1..]);
      LiftCons(user, i, n, es);
      assert Values([f]) == (if f.SetProgress? then [f.value] else []) by {
        assert [f][1..] == [];
      }
      ValuesAppend([f], Lift(user, i, n, es[1..]));
      assert Reports([e]) == (if e.Report? then [e.step] else []) by {
        assert [e][1..] == [];
      }
      ReportsAppend([e], es[1..]);
      ScaledAppend(i, n, Reports([e]), Reports(es[1..]));
    }
  }

  lemma {:induction false} LiftInvocations(user: string, i: nat, n: nat, es: seq<Event>)
    requires i < n
    ensures Invocations(Lift(user, i, n, es)) == Pairs(user, Calls(es))
  {
    if es != [] {
      var e := es[0];
      var f := LiftOne(user, i, n, e);
      LiftInvocations(user, i, n, es[1..]);
      LiftCons(user, i, n, es);
      assert Invocations([f]) == (if f.Invoke? then [(f.user, f.phase)] else []) by {
        assert [f][1..] == [];
      }
      InvocationsAppend([f], Lift(user, i, n, es[1..]));
      assert Calls([e]) == (if e.Call? then [e.phase] else []) by {
        assert [e][1..] == [];
      }
      CallsAppend([e], es[1..]);
      PairsAppend(user, Calls([e]), Calls(es[1..]));
    }
  }

  lemma {:induction false} LiftEntries(user: string, i: nat, n: nat, es: seq<Event>)
    requires i < n
    ensures Processed(Lift(user, i, n, es)) == []
    ensures forall e :: e in Entries(Lift(user, i, n, es)) ==> e.Worker?
  {
    if es != [] {
      var f := LiftOne(user, i, n, es[0]);
      LiftEntries(user, i, n, es[1..]);
      LiftCons(user, i, n, es);
      JournalOne(f);
      ProcessedAppend([f], Lift(user, i, n, es[1..]));
      EntriesAppend([f], Lift(user, i, n, es[1..]));
    }
  }

  lemma ScaledAppend(i: nat, n: nat, a: seq<int>, b: seq<int>)
    requires i < n
    ensures Scaled(i, n, a + b) == Scaled(i, n, a) + Scaled(i, n, b)
  {
  }

  lemma PairsAppend(user: string, a: seq<Phase>, b: seq<Phase>)
    ensures Pairs(user, a + b) == Pairs(user, a) + Pairs(user, b)
  {
  }

  lemma {:induction false} LiftAppend(user: string, i: nat, n: nat, a: seq<Event>, b: seq<Event>)
    requires i < n
    ensures Lift(user, i, n, a + b) == Lift(user, i, n, a) + Lift(user, i, n, b)
  {
  }

  /**
   * User `i` of `n`: the bar moves from the start of its share to the end of
   * it, never leaves the share and never goes back.
   */
  lemma UserWindow(users: seq<string>, i: nat, cookies: Credentials, path: string, cwd: string,
                   stories: bool, posts: bool, cancel: Flags, cp: nat, ok: Collaborator)
    requires i < |users|
    ensures var n := |users|;
            var v := Values(Lift(users[i], i, n, Media(users[i], cookies, path, cwd, stories, posts, cancel, cp, ok).events));
            |v| >= 2 && v[0] == Start(i, n) && v[|v| - 1] == End(i, n) && NonDecreasingReal(v) &&
            forall k :: 0 <= k < |v| ==> Start(i, n) <= v[k] <= End(i, n)
  {
    var n := |users|;
    var es := Media(users[i], cookies, path, cwd, stories, posts, cancel, cp, ok).events;
    MediaProgress(users[i], cookies, path, cwd, stories, posts, cancel, cp, ok);
    LiftViews(users[i], i, n, es);
    var r := Reports(es);
    forall a, b | 0 <= a < b < |r|
      ensures Total(i, n, r[a]) <= Total(i, n, r[b])
    {
      TotalMonotone(i, n, r[a], r[b]);
    }
  }

  predicate NonDecreasingReal(s: seq<real>)
  {
    forall a, b :: 0 <= a < b < |s| ==> s[a] <= s[b]
  }

  // ----- progress over the whole run -----

  /** From user `i` on, the bar never goes back and stays between the start of `i`'s share and 100. */
  lemma {:induction false} LoopProgress(users: seq<string>, i: nat, cookies: Credentials, path: string, cwd: string,
                                        stories: bool, posts: bool, cancel: Flags, cp: nat, ok: Collaborator)
    requires i <= |users| && |users| > 0
    ensures var v := Values(Loop(users, i, cookies, path, cwd, stories, posts, cancel, cp, ok).effects);
            NonDecreasingReal(v) && forall k :: 0 <= k < |v| ==> Start(i, |users|) <= v[k] <= 100.0
    decreases |users| - i
  {
    var n := |users|;
    if i < n && !cancel(cp) {
      var m := Media(users[i], cookies, path, cwd, stories, posts, cancel, cp + 1, ok);
      var l := Loop(users, i, cookies, path, cwd, stories, posts, cancel, cp, ok);
      var rest := Loop(users, i + 1, cookies, path, cwd, stories, posts, cancel, m.next, ok);
      var lifted := Lift(users[i], i, n, m.events);
      LoopProgress(users, i + 1, cookies, path, cwd, stories, posts, cancel, m.next, ok);
      assert Values(l.effects) == Values(lifted) + Values(rest.effects) by {
        LoopEnter(users, i, cookies, path, cwd, stories, posts, cancel, cp, ok);
        AnnouncedValues(Processing(i + 1, n, users[i]), lifted, rest.effects);
      }
      var v := Values(lifted);
      assert NonDecreasingReal(v) && forall k :: 0 <= k < |v| ==> Start(i, n) <= v[k] <= Start(i + 1, n) by {
        UserWindow(users, i, cookies, path, cwd, stories, posts, cancel, cp + 1, ok);
        ShareBounds(i, n);
      }
      assert Start(i, n) <= Start(i + 1, n) <= 100.0 by {
        ShareBounds(i, n);
      }
      ProgressNext(v, Values(rest.effects), Start(i, n), Start(i + 1, n), 100.0);
    } else if i < n {
      JournalOne(Write(RunCancelled));
    }
  }

  /** The inductive step of `LoopProgress`: one user's share of the bar, then the rest above it. */
  lemma ProgressNext(a: seq<real>, b: seq<real>, lo: real, mid: real, hi: real)
    requires NonDecreasingReal(a) && NonDecreasingReal(b)
    requires forall k :: 0 <= k < |a| ==> lo <= a[k] <= mid
    requires forall k :: 0 <= k < |b| ==> mid <= b[k] <= hi
    requires lo <= mid <= hi
    ensures NonDecreasingReal(a + b) && forall k :: 0 <= k < |a + b| ==> lo <= (a + b)[k] <= hi
  {
    ConcatNonDecreasing(a, b, mid);
    forall k | 0 <= k < |a + b|
      ensures lo <= (a + b)[k] <= hi
    {
      if k >= |a| {
        assert (a + b)[k] == b[k - |a|];
      }
    }
  }

  lemma ConcatNonDecreasing(a: seq<real>, b: seq<real>, mid: real)
    requires NonDecreasingReal(a) && NonDecreasingReal(b)
    requires forall k :: 0 <= k < |a| ==> a[k] <= mid
    requires forall k :: 0 <= k < |b| ==> mid <= b[k]
    ensures NonDecreasingReal(a + b)
  {
  }

  /**
   * Over a whole run the progress bar never goes back and stays within
   * [0, 100]; when the final read of the flag finds it clear the bar ends at
   * 100, and otherwise the loop's last value is left on it.
   */
  lemma RunProgress(users: seq<string>, cookies: Credentials, path: string, cwd: string,
                    stories: bool, posts: bool, cancel: Flags, cp: nat, ok: Collaborator, init: real)
    ensures var l := Loop(users, 0, cookies, path, cwd, stories, posts, cancel, cp, ok);
            var fx := Run(users, cookies, path, cwd, stories, posts, cancel, cp, ok);
            var v := Values(fx);
            NonDecreasingReal(v) && (forall k :: 0 <= k < |v| ==> 0.0 <= v[k] <= 100.0) &&
            (!cancel(l.next) ==> Progress(fx, init) == 100.0) &&
            (cancel(l.next) ==> Progress(fx, init) == Progress(l.effects, init))
  {
    var l := Loop(users, 0, cookies, path, cwd, stories, posts, cancel, cp, ok);
    LoopBounds(users, cookies, path, cwd, stories, posts, cancel, cp, ok);
    FinishProgress(l.effects, cancel(l.next), init);
  }

  lemma FinishProgress(fx: seq<Effect>, cancelled: bool, init: real)
    requires NonDecreasingReal(Values(fx)) && forall k :: 0 <= k < |Values(fx)| ==> 0.0 <= Values(fx)[k] <= 100.0
    ensures var v := Values(fx + Finish(cancelled));
            NonDecreasingReal(v) && (forall k :: 0 <= k < |v| ==> 0.0 <= v[k] <= 100.0) &&
            Progress(fx + Finish(cancelled), init) == if cancelled then Progress(fx, init) else 100.0
  {
    var fin := Finish(cancelled);
    var v := Values(fx);
    assert Values(fin) == (if cancelled then [] else [100.0]) &&
           Progress(fin, Progress(fx, init)) == (if cancelled then Progress(fx, init) else 100.0) by {
      FinishValues(cancelled, Progress(fx, init));
    }
    assert Values(fx + fin) == v + Values(fin) by {
      ValuesAppend(fx, fin);
    }
    assert Progress(fx + fin, init) == Progress(fin, Progress(fx, init)) by {
      ProgressAppend(fx, fin, init);
    }
    if !cancelled {
      ConcatNonDecreasing(v, [100.0], 100.0);
    } else {
      assert v + [] == v;
    }
  }

  lemma LoopBounds(users: seq<string>, cookies: Credentials, path: string, cwd: string,
                   stories: bool, posts: bool, cancel: Flags, cp: nat, ok: Collaborator)
    ensures var v := Values(Loop(users, 0, cookies, path, cwd, stories, posts, cancel, cp, ok).effects);
            NonDecreasingReal(v) && forall k :: 0 <= k < |v| ==> 0.0 <= v[k] <= 100.0
  {
    if users != [] {
      LoopProgress(users, 0, cookies, path, cwd, stories, posts, cancel, cp, ok);
      ShareBounds(0, |users|);
    }
  }

  lemma FinishValues(cancelled: bool, init: real)
    ensures Values(Finish(cancelled)) == if cancelled then [] else [100.0]
    ensures Progress(Finish(cancelled), init) == if cancelled then init else 100.0
    ensures Invocations(Finish(cancelled)) == [] && Processed(Finish(cancelled)) == []
    ensures Entries(Finish(cancelled)) == if cancelled then [FinishedWithCancel] else [AllCompleted]
  {
    if !cancelled {
      var a, b := [Write(AllCompleted)], [SetProgress(100.0)];
      assert a + b == Finish(cancelled);
      JournalOne(a[0]);
      JournalOne(b[0]);
      ValuesAppend(a, b);
      EntriesAppend(a, b);
      InvocationsAppend(a, b);
      ProcessedAppend(a, b);
      ProgressAppend(a, b, init);
    } else {
      JournalOne(Write(FinishedWithCancel));
    }
  }

  // ----- order, completion and the users reached -----

  /** The loop entering user `i`: announce, run the media download, go on from the read after it. */
  lemma LoopEnter(users: seq<string>, i: nat, cookies: Credentials, path: string, cwd: string,
                  stories: bool, posts: bool, cancel: Flags, cp: nat, ok: Collaborator)
    requires i < |users| && !cancel(cp)
    ensures var m := Media(users[i], cookies, path, cwd, stories, posts, cancel, cp + 1, ok);
            var l := Loop(users, i, cookies, path, cwd, stories, posts, cancel, cp, ok);
            var rest := Loop(users, i + 1, cookies, path, cwd, stories, posts, cancel, m.next, ok);
            l.effects == [Write(Processing(i + 1, |users|, users[i]))] + Lift(users[i], i, |users|, m.events) + rest.effects &&
            l.next == rest.next
  {
  }

  /** The loop's views when user `i` passes its checkpoint. */
  lemma LoopStep(users: seq<string>, i: nat, cookies: Credentials, path: string, cwd: string,
                 stories: bool, posts: bool, cancel: Flags, cp: nat, ok: Collaborator)
    requires i < |users| && !cancel(cp)
    ensures var m := Media(users[i], cookies, path, cwd, stories, posts, cancel, cp + 1, ok);
            var l := Loop(users, i, cookies, path, cwd, stories, posts, cancel, cp, ok);
            var rest := Loop(users, i + 1, cookies, path, cwd, stories, posts, cancel, m.next, ok);
            var lifted := Lift(users[i], i, |users|, m.events);
            l.next == rest.next &&
            Values(l.effects) == Values(lifted) + Values(rest.effects) &&
            Invocations(l.effects) == Pairs(users[i], Calls(m.events)) + Invocations(rest.effects) &&
            Processed(l.effects) == [users[i]] + Processed(rest.effects) &&
            Entries(l.effects) == [Processing(i + 1, |users|, users[i])] + Entries(lifted) + Entries(rest.effects)
  {
    var m := Media(users[i], cookies, path, cwd, stories, posts, cancel, cp + 1, ok);
    LoopEnter(users, i, cookies, path, cwd, stories, posts, cancel, cp, ok);
    LiftViews(users[i], i, |users|, m.events);
    var rest := Loop(users, i + 1, cookies, path, cwd, stories, posts, cancel, m.next, ok);
    AnnouncedViews(Processing(i + 1, |users|, users[i]), Lift(users[i], i, |users|, m.events), rest.effects);
  }

  /** The views of an announcement, then a user's lifted events, then the rest. */
  lemma AnnouncedViews(head: Entry, lifted: seq<Effect>, rest: seq<Effect>)
    requires head.Processing? && Processed(lifted) == []
    ensures var fx := [Write(head)] + lifted + rest;
            Values(fx) == Values(lifted) + Values(rest) &&
            Invocations(fx) == Invocations(lifted) + Invocations(rest) &&
            Processed(fx) == [head.user] + Processed(rest) &&
            Entries(fx) == [head] + Entries(lifted) + Entries(rest)
  {
    AnnouncedValues(head, lifted, rest);
    AnnouncedInvocations(head, lifted, rest);
    AnnouncedProcessed(head, lifted, rest);
    AnnouncedEntries(head, lifted, rest);
  }

  lemma AnnouncedValues(head: Entry, lifted: seq<Effect>, rest: seq<Effect>)
    ensures Values([Write(head)] + lifted + rest) == Values(lifted) + Values(rest)
  {
    assert Values([Write(head)]) == [] by {
      assert [Write(head)][1..] == [];
    }
    ValuesAppend([Write(head)], lifted);
    ValuesAppend([Write(head)] + lifted, rest);
  }

  lemma AnnouncedInvocations(head: Entry, lifted: seq<Effect>, rest: seq<Effect>)
    ensures Invocations([Write(head)] + lifted + rest) == Invocations(lifted) + Invocations(rest)
  {
    assert Invocations([Write(head)]) == [] by {
      assert [Write(head)][1..] == [];
    }
    InvocationsAppend([Write(head)], lifted);
    InvocationsAppend([Write(head)] + lifted, rest);
  }

  lemma AnnouncedProcessed(head: Entry, lifted: seq<Effect>, rest: seq<Effect>)
    requires head.Processing? && Processed(lifted) == []
    ensures Processed([Write(head)] + lifted + rest) == [head.user] + Processed(rest)
  {
    assert Processed([Write(head)]) == [head.user] by {
      assert [Write(head)][1..] == [];
    }
    ProcessedAppend([Write(head)], lifted);
    ProcessedAppend([Write(head)] + lifted, rest);
  }

  lemma AnnouncedEntries(head: Entry, lifted: seq<Effect>, rest: seq<Effect>)
    ensures Entries([Write(head)] + lifted + rest) == [head] + Entries(lifted) + Entries(rest)
  {
    assert Entries([Write(head)]) == [head] by {
      assert [Write(head)][1..] == [];
    }
    EntriesAppend([Write(head)], lifted);
    EntriesAppend([Write(head)] + lifted, rest);
  }

  /** The loop's views when the checkpoint before user `i` sees the flag set. */
  lemma LoopStop(users: seq<string>, i: nat, cookies: Credentials, path: string, cwd: string,
                 stories: bool, posts: bool, cancel: Flags, cp: nat, ok: Collaborator)
    requires i < |users| && cancel(cp)
    ensures var l := Loop(users, i, cookies, path, cwd, stories, posts, cancel, cp, ok);
            l.next == cp + 1 && Values(l.effects) == [] && Invocations(l.effects) == [] &&
            Processed(l.effects) == [] && Entries(l.effects) == [RunCancelled]
  {
    JournalOne(Write(RunCancelled));
  }

  /**
   * From user `i` on, the users announced are the next ones in order, and if
   * the loop stops short it says so.
   */
  lemma {:induction false} LoopPrefix(users: seq<string>, i: nat, cookies: Credentials, path: string, cwd: string,
                                      stories: bool, posts: bool, cancel: Flags, cp: nat, ok: Collaborator)
    requires i <= |users|
    ensures var l := Loop(users, i, cookies, path, cwd, stories, posts, cancel, cp, ok);
            var p := Processed(l.effects);
            p <= users[i..] && (p != users[i..] ==> RunCancelled in Entries(l.effects))
    decreases |users| - i
  {
    if i < |users| {
      if cancel(cp) {
        LoopStop(users, i, cookies, path, cwd, stories, posts, cancel, cp, ok);
      } else {
        var m := Media(users[i], cookies, path, cwd, stories, posts, cancel, cp + 1, ok);
        var rest := Loop(users, i + 1, cookies, path, cwd, stories, posts, cancel, m.next, ok);
        var lifted := Lift(users[i], i, |users|, m.events);
        LoopPrefix(users, i + 1, cookies, path, cwd, stories, posts, cancel, m.next, ok);
        LoopEnter(users, i, cookies, path, cwd, stories, posts, cancel, cp, ok);
        LiftEntries(users[i], i, |users|, m.events);
        PrefixNext(users, i, lifted, Loop(users, i, cookies, path, cwd, stories, posts, cancel, cp, ok).effects,
                   rest.effects);
      }
    }
  }

  /** The inductive step of `LoopPrefix`: an announcement and a user's lifted events in front of the rest. */
  lemma PrefixNext(users: seq<string>, i: nat, lifted: seq<Effect>, fx: seq<Effect>, rest: seq<Effect>)
    requires i < |users| && Processed(lifted) == []
    requires fx == [Write(Processing(i + 1, |users|, users[i]))] + lifted + rest
    requires Processed(rest) <= users[i + 1..] && (Processed(rest) != users[i + 1..] ==> RunCancelled in Entries(rest))
    ensures Processed(fx) <= users[i..] && (Processed(fx) != users[i..] ==> RunCancelled in Entries(fx))
  {
    var head := Processing(i + 1, |users|, users[i]);
    AnnouncedProcessed(head, lifted, rest);
    AnnouncedEntries(head, lifted, rest);
    assert users[i..] == [users[i]] + users[i + 1..];
    PrefixStep(users[i], users[i + 1..], Processed(fx), Processed(rest), Entries(fx), Entries(rest));
  }

  lemma PrefixStep(x: string, tail: seq<string>, p: seq<string>, p': seq<string>, e: seq<Entry>, e': seq<Entry>)
    requires p == [x] + p' && p' <= tail && (p' != tail ==> RunCancelled in e')
    requires RunCancelled in e' ==> RunCancelled in e
    ensures p <= [x] + tail && (p != [x] + tail ==> RunCancelled in e)
  {
    ConsPrefix(x, p', tail);
  }

  lemma ConsPrefix(x: string, p: seq<string>, q: seq<string>)
    requires p <= q
    ensures [x] + p <= [x] + q
    ensures [x] + p == [x] + q ==> p == q
  {
    if [x] + p == [x] + q {
      assert p == ([x] + p)[1..];
    }
  }

  /** The loop never writes the end-of-run lines. */
  lemma {:induction false} LoopEntries(users: seq<string>, i: nat, cookies: Credentials, path: string, cwd: string,
                                       stories: bool, posts: bool, cancel: Flags, cp: nat, ok: Collaborator)
    requires i <= |users|
    ensures var l := Loop(users, i, cookies, path, cwd, stories, posts, cancel, cp, ok);
            AllCompleted !in Entries(l.effects) && FinishedWithCancel !in Entries(l.effects)
    decreases |users| - i
  {
    if i < |users| {
      if cancel(cp) {
        LoopStop(users, i, cookies, path, cwd, stories, posts, cancel, cp, ok);
      } else {
        var m := Media(users[i], cookies, path, cwd, stories, posts, cancel, cp + 1, ok);
        var l := Loop(users, i, cookies, path, cwd, stories, posts, cancel, cp, ok);
        var rest := Loop(users, i + 1, cookies, path, cwd, stories, posts, cancel, m.next, ok);
        var lifted := Lift(users[i], i, |users|, m.events);
        LoopEntries(users, i + 1, cookies, path, cwd, stories, posts, cancel, m.next, ok);
        LiftEntries(users[i], i, |users|, m.events);
        assert Entries(l.effects) == [Processing(i + 1, |users|, users[i])] + Entries(lifted) + Entries(rest.effects) by {
          LoopEnter(users, i, cookies, path, cwd, stories, posts, cancel, cp, ok);
          AnnouncedEntries(Processing(i + 1, |users|, users[i]), lifted, rest.effects);
        }
      }
    }
  }

  /** Every call into the library is for an announced user and an enabled phase. */
  lemma {:induction false} LoopCalls(users: seq<string>, i: nat, cookies: Credentials, path: string, cwd: string,
                                     stories: bool, posts: bool, cancel: Flags, cp: nat, ok: Collaborator)
    requires i <= |users|
    ensures var l := Loop(users, i, cookies, path, cwd, stories, posts, cancel, cp, ok);
            forall q :: q in Invocations(l.effects) ==> q.0 in Processed(l.effects) && q.1 in Enabled(stories, posts)
    decreases |users| - i
  {
    if i < |users| {
      if cancel(cp) {
        LoopStop(users, i, cookies, path, cwd, stories, posts, cancel, cp, ok);
      } else {
        var m := Media(users[i], cookies, path, cwd, stories, posts, cancel, cp + 1, ok);
        var l := Loop(users, i, cookies, path, cwd, stories, posts, cancel, cp, ok);
        var rest := Loop(users, i + 1, cookies, path, cwd, stories, posts, cancel, m.next, ok);
        LoopCalls(users, i + 1, cookies, path, cwd, stories, posts, cancel, m.next, ok);
        assert Calls(m.events) <= Enabled(stories, posts) by {
          MediaCheckpoints(users[i], cookies, path, cwd, stories, posts, cancel, cp + 1, ok);
        }
        assert Invocations(l.effects) == Pairs(users[i], Calls(m.events)) + Invocations(rest.effects) &&
               Processed(l.effects) == [users[i]] + Processed(rest.effects) by {
          LoopStep(users, i, cookies, path, cwd, stories, posts, cancel, cp, ok);
        }
        CallsNext(users[i], Calls(m.events), Enabled(stories, posts), Invocations(l.effects), Invocations(rest.effects),
                  Processed(l.effects), Processed(rest.effects));
      }
    }
  }

  /** The inductive step of `LoopCalls`: one announced user's calls in front of the rest. */
  lemma CallsNext(user: string, calls: seq<Phase>, enabled: seq<Phase>, inv: seq<(string, Phase)>,
                  inv': seq<(string, Phase)>, proc: seq<string>, proc': seq<string>)
    requires calls <= enabled && inv == Pairs(user, calls) + inv' && proc == [user] + proc'
    requires forall q :: q in inv' ==> q.0 in proc' && q.1 in enabled
    ensures forall q :: q in inv ==> q.0 in proc && q.1 in enabled
  {
    PairsIn(user, calls, enabled);
  }

  lemma PairsIn(user: string, calls: seq<Phase>, enabled: seq<Phase>)
    requires calls <= enabled
    ensures forall q :: q in Pairs(user, calls) ==> q.0 == user && q.1 in enabled
  {
    forall q | q in Pairs(user, calls)
      ensures q.0 == user && q.1 in enabled
    {
      var k :| 0 <= k < |calls| && Pairs(user, calls)[k] == q;
      assert calls[k] == enabled[k];
    }
  }

  /**
   * Over a whole run: the users reached are a prefix of those chosen, a run
   * that stops short logs the cancellation, every library call is for a user
   * reached and a phase asked for, and exactly one of "completed" or "finished
   * with cancellation" is logged, according to the final read of the flag.
   */
  lemma RunOrder(users: seq<string>, cookies: Credentials, path: string, cwd: string,
                 stories: bool, posts: bool, cancel: Flags, cp: nat, ok: Collaborator)
    ensures var l := Loop(users, 0, cookies, path, cwd, stories, posts, cancel, cp, ok);
            var fx := Run(users, cookies, path, cwd, stories, posts, cancel, cp, ok);
            var p := Processed(fx);
            p <= users &&
            (p != users ==> RunCancelled in Entries(fx)) &&
            (forall q :: q in Invocations(fx) ==> q.0 in p && q.1 in Enabled(stories, posts)) &&
            (AllCompleted in Entries(fx) <==> !cancel(l.next)) &&
            (FinishedWithCancel in Entries(fx) <==> cancel(l.next))
  {
    var l := Loop(users, 0, cookies, path, cwd, stories, posts, cancel, cp, ok);
    LoopPrefix(users, 0, cookies, path, cwd, stories, posts, cancel, cp, ok);
    LoopEntries(users, 0, cookies, path, cwd, stories, posts, cancel, cp, ok);
    LoopCalls(users, 0, cookies, path, cwd, stories, posts, cancel, cp, ok);
    assert users[0..] == users;
    FinishViews(l.effects, cancel(l.next));
  }

  lemma FinishViews(fx: seq<Effect>, cancelled: bool)
    ensures Values(fx + Finish(cancelled)) == Values(fx) + (if cancelled then [] else [100.0])
    ensures Processed(fx + Finish(cancelled)) == Processed(fx)
    ensures Invocations(fx + Finish(cancelled)) == Invocations(fx)
    ensures Entries(fx + Finish(cancelled)) ==
            Entries(fx) + (if cancelled then [FinishedWithCancel] else [AllCompleted])
  {
    FinishValues(cancelled, 0.0);
    ValuesAppend(fx, Finish(cancelled));
    ProcessedAppend(fx, Finish(cancelled));
    InvocationsAppend(fx, Finish(cancelled));
    EntriesAppend(fx, Finish(cancelled));
  }

  /** Every user paired with every phase asked for, user by user. */
  function Jobs(users: seq<string>, ps: seq<Phase>): seq<(string, Phase)>
  {
    if users == [] then [] else Pairs(users[0], ps) + Jobs(users[1..], ps)
  }

  /** A flag that no read ever finds set. */
  ghost predicate NeverSet(cancel: Flags)
  {
    forall j :: !cancel(j)
  }

  lemma {:induction false} LoopFull(users: seq<string>, i: nat, cookies: Credentials, path: string, cwd: string,
                                    stories: bool, posts: bool, cancel: Flags, cp: nat, ok: Collaborator)
    requires i <= |users| && NeverSet(cancel)
    ensures var l := Loop(users, i, cookies, path, cwd, stories, posts, cancel, cp, ok);
            Processed(l.effects) == users[i..] &&
            Invocations(l.effects) == Jobs(users[i..], Enabled(stories, posts))
    decreases |users| - i
  {
    if i < |users| {
      var m := Media(users[i], cookies, path, cwd, stories, posts, cancel, cp + 1, ok);
      LoopStep(users, i, cookies, path, cwd, stories, posts, cancel, cp, ok);
      LoopFull(users, i + 1, cookies, path, cwd, stories, posts, cancel, m.next, ok);
      MediaCheckpoints(users[i], cookies, path, cwd, stories, posts, cancel, cp + 1, ok);
      assert !cancel(m.next - 1);
      assert users[i..][1..] == users[i + 1..];
    }
  }

  /**
   * A run the flag never interrupts reaches every chosen user in order, asks
   * for every enabled phase of each, logs completion and leaves the bar at 100.
   */
  lemma RunFull(users: seq<string>, cookies: Credentials, path: string, cwd: string,
                stories: bool, posts: bool, cancel: Flags, cp: nat, ok: Collaborator, init: real)
    requires NeverSet(cancel)
    ensures var fx := Run(users, cookies, path, cwd, stories, posts, cancel, cp, ok);
            Processed(fx) == users && Invocations(fx) == Jobs(users, Enabled(stories, posts)) &&
            Entries(fx) != [] && Entries(fx)[|Entries(fx)| - 1] == AllCompleted && Progress(fx, init) == 100.0
  {
    var l := Loop(users, 0, cookies, path, cwd, stories, posts, cancel, cp, ok);
    assert !cancel(l.next);
    assert Processed(l.effects) == users && Invocations(l.effects) == Jobs(users, Enabled(stories, posts)) by {
      LoopFull(users, 0, cookies, path, cwd, stories, posts, cancel, cp, ok);
      assert users[0..] == users;
    }
    FinishViews(l.effects, false);
    assert Progress(l.effects + Finish(false), init) == 100.0 by {
      FinishValues(false, Progress(l.effects, init));
      ProgressAppend(l.effects, Finish(false), init);
    }
  }


  // ----- failure isolation -----

  lemma {:induction false} LoopIsolation(users: seq<string>, i: nat, cookies: Credentials, path: string, cwd: string,
                                         stories: bool, posts: bool, cancel: Flags, cp: nat,
                                         ok: Collaborator, ok': Collaborator)
    requires i <= |users|
    ensures var l := Loop(users, i, cookies, path, cwd, stories, posts, cancel, cp, ok);
            var l' := Loop(users, i, cookies, path, cwd, stories, posts, cancel, cp, ok');
            l.next == l'.next && Values(l.effects) == Values(l'.effects) &&
            Invocations(l.effects) == Invocations(l'.effects) && Processed(l.effects) == Processed(l'.effects)
    decreases |users| - i
  {
    if i < |users| && !cancel(cp) {
      var m := Media(users[i], cookies, path, cwd, stories, posts, cancel, cp + 1, ok);
      var m' := Media(users[i], cookies, path, cwd, stories, posts, cancel, cp + 1, ok');
      LoopStep(users, i, cookies, path, cwd, stories, posts, cancel, cp, ok);
      LoopStep(users, i, cookies, path, cwd, stories, posts, cancel, cp, ok');
      MediaIsolation(users[i], cookies, path, cwd, stories, posts, cancel, cp + 1, ok, ok');
      LiftValues(users[i], i, |users|, m.events);
      LiftValues(users[i], i, |users|, m'.events);
      LoopIsolation(users, i + 1, cookies, path, cwd, stories, posts, cancel, m.next, ok, ok');
    }
  }

  /**
   * Failure isolation over a run: whether the library's calls succeed changes
   * only the log lines; the progress values, the calls made and the users
   * reached are the same, and a failure never ends the batch.
   */
  lemma RunIsolation(users: seq<string>, cookies: Credentials, path: string, cwd: string,
                     stories: bool, posts: bool, cancel: Flags, cp: nat, ok: Collaborator, ok': Collaborator)
    ensures var fx := Run(users, cookies, path, cwd, stories, posts, cancel, cp, ok);
            var fx' := Run(users, cookies, path, cwd, stories, posts, cancel, cp, ok');
            Values(fx) == Values(fx') && Invocations(fx) == Invocations(fx') && Processed(fx) == Processed(fx')
  {
    var l := Loop(users, 0, cookies, path, cwd, stories, posts, cancel, cp, ok);
    var l' := Loop(users, 0, cookies, path, cwd, stories, posts, cancel, cp, ok');
    LoopIsolation(users, 0, cookies, path, cwd, stories, posts, cancel, cp, ok, ok');
    FinishViews(l.effects, cancel(l.next));
    FinishViews(l'.effects, cancel(l'.next));
  }

  // ----- cancellation stops the work -----

  /** Once a read finds the flag set, every later read does too. */
  ghost predicate StaysSet(cancel: Flags)
  {
    forall j, k :: j <= k && cancel(j) ==> cancel(k)
  }

  /** A log line saying that a checkpoint found the flag set. */
  predicate Seen(f: Effect)
  {
    f.Write? &&
    (f.entry == RunCancelled ||
     (f.entry.Worker? && (f.entry.note == CancelledBeforeStart || f.entry.note == CancelledBeforePhase)))
  }

  predicate HasSeen(fx: seq<Effect>)
  {
    fx != [] && (Seen(fx[0]) || HasSeen(fx[1..]))
  }

  /** What happens after the first line saying the flag was found set (nothing if there is none). */
  function AfterCancel(fx: seq<Effect>): seq<Effect>
  {
    if fx == [] then [] else if Seen(fx[0]) then fx[1..] else AfterCancel(fx[1..])
  }

  /** No call into the library and no user announced. */
  predicate Quiet(fx: seq<Effect>)
  {
    forall k :: 0 <= k < |fx| ==> !fx[k].Invoke? && !(fx[k].Write? && fx[k].entry.Processing?)
  }

  lemma {:induction false} AfterAppend(a: seq<Effect>, b: seq<Effect>)
    ensures HasSeen(a + b) <==> HasSeen(a) || HasSeen(b)
    ensures AfterCancel(a + b) == if HasSeen(a) then AfterCancel(a) + b else AfterCancel(b)
  {
    if a != [] {
      assert (a + b)[0] == a[0];
      assert (a + b)[1..] == a[1..] + b;
      AfterAppend(a[1..], b);
    } else {
      assert a + b == b;
    }
  }

  lemma {:induction false} LiftSeen(user: string, i: nat, n: nat, es: seq<Event>)
    requires i < n
    ensures HasSeen(Lift(user, i, n, es)) <==> CancelNoted(es)
  {
    if es != [] {
      LiftCons(user, i, n, es);
      LiftSeen(user, i, n, es[1..]);
      assert Lift(user, i, n, es)[1..] == Lift(user, i, n, es[1..]);
    }
  }

  /**
   * When user `i`'s download saw the flag set, only the return to the
   * original directory and the end of the user's share follow the line that
   * says so.
   */
  lemma MediaAfter(user: string, i: nat, n: nat, cookies: Credentials, path: string, cwd: string,
                   stories: bool, posts: bool, cancel: Flags, cp: nat, ok: Collaborator)
    requires i < n
    ensures var m := Media(user, cookies, path, cwd, stories, posts, cancel, cp, ok);
            var lifted := Lift(user, i, n, m.events);
            (HasSeen(lifted) <==> cancel(m.next - 1)) &&
            (HasSeen(lifted) ==> AfterCancel(lifted) == [Chdir(cwd), SetProgress(End(i, n))])
  {
    var m := Media(user, cookies, path, cwd, stories, posts, cancel, cp, ok);
    MediaCancelNote(user, cookies, path, cwd, stories, posts, cancel, cp, ok);
    NotedAfter(user, i, n, cwd, m.events);
  }

  /** A cancellation message followed only by the return to `cwd` and the final 100, lifted into user `i`'s share. */
  lemma NotedAfter(user: string, i: nat, n: nat, cwd: string, es: seq<Event>)
    requires i < n
    requires CancelNoted(es) ==>
               |es| >= 3 && IsCancelNote(es[|es| - 3]) && !CancelNoted(es[..|es| - 3]) &&
               es[|es| - 2..] == [ChangeDir(cwd), Report(100)]
    ensures HasSeen(Lift(user, i, n, es)) <==> CancelNoted(es)
    ensures CancelNoted(es) ==> AfterCancel(Lift(user, i, n, es)) == [Chdir(cwd), SetProgress(End(i, n))]
  {
    LiftSeen(user, i, n, es);
    if CancelNoted(es) {
      var k := |es| - 3;
      LastThree(es, [ChangeDir(cwd), Report(100)]);
      NoteThenFinally(user, i, n, cwd, es[..k], es[k]);
    }
  }

  lemma LastThree(es: seq<Event>, tail: seq<Event>)
    requires |es| >= 3 && |tail| == 2 && es[|es| - 2..] == tail
    ensures es == es[..|es| - 3] + ([es[|es| - 3]] + tail)
  {
  }

  lemma NoteThenFinally(user: string, i: nat, n: nat, cwd: string, pre: seq<Event>, note: Event)
    requires i < n && IsCancelNote(note) && !CancelNoted(pre)
    ensures AfterCancel(Lift(user, i, n, pre + ([note] + [ChangeDir(cwd), Report(100)]))) ==
            [Chdir(cwd), SetProgress(End(i, n))]
  {
    var tail := [ChangeDir(cwd), Report(100)];
    LiftSplit(user, i, n, pre, note, tail);
    LiftSeen(user, i, n, pre);
    LiftFinally(user, i, n, cwd);
    SeenFirst(Lift(user, i, n, pre), LiftOne(user, i, n, note), Lift(user, i, n, tail));
  }

  /** The return to `cwd` and the final 100, lifted into user `i`'s share. */
  lemma LiftFinally(user: string, i: nat, n: nat, cwd: string)
    requires i < n
    ensures Lift(user, i, n, [ChangeDir(cwd), Report(100)]) == [Chdir(cwd), SetProgress(End(i, n))]
  {
  }

  lemma LiftSplit(user: string, i: nat, n: nat, pre: seq<Event>, e: Event, tail: seq<Event>)
    requires i < n
    ensures Lift(user, i, n, pre + ([e] + tail)) == Lift(user, i, n, pre) + ([LiftOne(user, i, n, e)] + Lift(user, i, n, tail))
  {
    LiftAppend(user, i, n, pre, [e] + tail);
    LiftAppend(user, i, n, [e], tail);
  }

  /** A first line saying the flag was found set, then `rest`: only `rest` follows it. */
  lemma SeenFirst(pre: seq<Effect>, f: Effect, rest: seq<Effect>)
    requires !HasSeen(pre) && Seen(f)
    ensures AfterCancel(pre + ([f] + rest)) == rest
  {
    AfterAppend(pre, [f] + rest);
    assert ([f] + rest)[0] == f && ([f] + rest)[1..] == rest;
  }

  /** With a flag that stays set, nothing is started after a checkpoint finds it set. */
  lemma {:induction false} LoopQuiet(users: seq<string>, i: nat, cookies: Credentials, path: string, cwd: string,
                                     stories: bool, posts: bool, cancel: Flags, cp: nat, ok: Collaborator)
    requires i <= |users| && StaysSet(cancel)
    ensures Quiet(AfterCancel(Loop(users, i, cookies, path, cwd, stories, posts, cancel, cp, ok).effects))
    decreases |users| - i
  {
    if i < |users| && !cancel(cp) {
      var n := |users|;
      var m := Media(users[i], cookies, path, cwd, stories, posts, cancel, cp + 1, ok);
      var rest := Loop(users, i + 1, cookies, path, cwd, stories, posts, cancel, m.next, ok);
      var lifted := Lift(users[i], i, n, m.events);
      LoopEnter(users, i, cookies, path, cwd, stories, posts, cancel, cp, ok);
      MediaAfter(users[i], i, n, cookies, path, cwd, stories, posts, cancel, cp + 1, ok);
      if HasSeen(lifted) {
        assert cancel(m.next - 1);
        assert cancel(m.next);
        if i + 1 < n {
          assert rest.effects == [Write(RunCancelled)];
        } else {
          assert rest.effects == [];
        }
      } else {
        LoopQuiet(users, i + 1, cookies, path, cwd, stories, posts, cancel, m.next, ok);
      }
      QuietNext(Processing(i + 1, n, users[i]), lifted, rest.effects, cwd, End(i, n));
    }
  }

  /**
   * The inductive step of `LoopQuiet`: an announcement, a user's lifted
   * events and the rest of the loop, which is quiet after its own first
   * cancellation line, or a lone cancellation line if the user's events have one.
   */
  lemma QuietNext(head: Entry, lifted: seq<Effect>, rest: seq<Effect>, cwd: string, end: real)
    requires !Seen(Write(head))
    requires HasSeen(lifted) ==> AfterCancel(lifted) == [Chdir(cwd), SetProgress(end)] &&
                                 (rest == [] || rest == [Write(RunCancelled)])
    requires !HasSeen(lifted) ==> Quiet(AfterCancel(rest))
    ensures Quiet(AfterCancel([Write(head)] + lifted + rest))
  {
    Regroup([Write(head)], lifted, rest);
    AfterAppend([Write(head)], lifted + rest);
    AfterAppend(lifted, rest);
    assert !HasSeen([Write(head)]) by {
      assert [Write(head)][1..] == [];
    }
  }

  /**
   * Cancellation: when the flag, once set, stays set, no library call is made
   * and no user is started after any log line saying a checkpoint found it
   * set; the run finishes the current step and stops.
   */
  lemma RunQuiet(users: seq<string>, cookies: Credentials, path: string, cwd: string,
                 stories: bool, posts: bool, cancel: Flags, cp: nat, ok: Collaborator)
    requires StaysSet(cancel)
    ensures Quiet(AfterCancel(Run(users, cookies, path, cwd, stories, posts, cancel, cp, ok)))
  {
    var l := Loop(users, 0, cookies, path, cwd, stories, posts, cancel, cp, ok);
    var tail := Finish(cancel(l.next));
    LoopQuiet(users, 0, cookies, path, cwd, stories, posts, cancel, cp, ok);
    AfterAppend(l.effects, tail);
    FinishQuiet(cancel(l.next));
    if HasSeen(l.effects) {
      QuietAppend(AfterCancel(l.effects), tail);
    }
  }

  lemma FinishQuiet(cancelled: bool)
    ensures !HasSeen(Finish(cancelled)) && Quiet(Finish(cancelled)) && AfterCancel(Finish(cancelled)) == []
  {
    var fx := Finish(cancelled);
    if cancelled {
      assert fx[1..] == [];
    } else {
      var t := fx[1..];
      assert t == [SetProgress(100.0)] && t[1..] == [];
      assert !Seen(t[0]) && !HasSeen(t[1..]) && AfterCancel(t[1..]) == [];
      assert !HasSeen(t) && AfterCancel(t) == [];
    }
  }

  lemma QuietAppend(a: seq<Effect>, b: seq<Effect>)
    requires Quiet(a) && Quiet(b)
    ensures Quiet(a + b)
  {
    forall k | 0 <= k < |a + b|
      ensures !(a + b)[k].Invoke? && !((a + b)[k].Write? && (a + b)[k].entry.Processing?)
    {
      if k < |a| {
        assert (a + b)[k] == a[k];
      } else {
        assert (a + b)[k] == b[k - |a|];
      }
    }
  }

  // ----- two worked runs -----

  lemma ScaledFirstOfTwo()
    ensures Scaled(0, 2, [0, 50, 100, 100]) == [0.0, 25.0, 50.0, 50.0]
  {
  }

  lemma ScaledSecondOfTwo()
    ensures Scaled(1, 2, [0, 50, 100, 100]) == [50.0, 75.0, 100.0, 100.0]
  {
  }

  /**
   * Two users, both phases, never cancelled: the bar shows 0, 25, 50 for the
   * first user (and 50 again at its `finally`), 50, 75, 100, 100 for the
   * second, and 100 at the end of the run.
   */
  lemma TwoUsersTrace(users: seq<string>, cookies: Credentials, path: string, cwd: string,
                      cancel: Flags, cp: nat, ok: Collaborator)
    requires |users| == 2 && NeverSet(cancel)
    ensures Values(Run(users, cookies, path, cwd, true, true, cancel, cp, ok))
         == [0.0, 25.0, 50.0, 50.0, 50.0, 75.0, 100.0, 100.0, 100.0]
  {
    var l := Loop(users, 0, cookies, path, cwd, true, true, cancel, cp, ok);
    var m0 := Media(users[0], cookies, path, cwd, true, true, cancel, cp + 1, ok);
    var l1 := Loop(users, 1, cookies, path, cwd, true, true, cancel, m0.next, ok);
    assert Values(l.effects) == [0.0, 25.0, 50.0, 50.0, 50.0, 75.0, 100.0, 100.0] by {
      FirstOfTwo(users, cookies, path, cwd, cancel, cp, ok);
      SecondOfTwo(users, cookies, path, cwd, cancel, m0.next, ok);
    }
    assert Values(l.effects + Finish(false)) == Values(l.effects) + [100.0] by {
      FinishValues(false, 0.0);
      ValuesAppend(l.effects, Finish(false));
    }
  }

  /** The first of two users, never cancelled, in front of the rest of the loop. */
  lemma FirstOfTwo(users: seq<string>, cookies: Credentials, path: string, cwd: string,
                   cancel: Flags, cp: nat, ok: Collaborator)
    requires |users| == 2 && NeverSet(cancel)
    ensures var m0 := Media(users[0], cookies, path, cwd, true, true, cancel, cp + 1, ok);
            var rest := Loop(users, 1, cookies, path, cwd, true, true, cancel, m0.next, ok);
            Values(Loop(users, 0, cookies, path, cwd, true, true, cancel, cp, ok).effects) ==
            [0.0, 25.0, 50.0, 50.0] + Values(rest.effects)
  {
    LoopStep(users, 0, cookies, path, cwd, true, true, cancel, cp, ok);
    BothPhasesShare(users[0], 0, cookies, path, cwd, cancel, cp + 1, ok);
    ScaledFirstOfTwo();
  }

  /** The loop from the second of two users, never cancelled. */
  lemma SecondOfTwo(users: seq<string>, cookies: Credentials, path: string, cwd: string,
                    cancel: Flags, cp: nat, ok: Collaborator)
    requires |users| == 2 && NeverSet(cancel)
    ensures Values(Loop(users, 1, cookies, path, cwd, true, true, cancel, cp, ok).effects)
         == [50.0, 75.0, 100.0, 100.0]
  {
    var m1 := Media(users[1], cookies, path, cwd, true, true, cancel, cp + 1, ok);
    var l2 := Loop(users, 2, cookies, path, cwd, true, true, cancel, m1.next, ok);
    LoopStep(users, 1, cookies, path, cwd, true, true, cancel, cp, ok);
    assert l2.effects == [];
    BothPhasesShare(users[1], 1, cookies, path, cwd, cancel, cp + 1, ok);
    ScaledSecondOfTwo();
    assert Values(l2.effects) == [];
  }

  /** One of two users, both phases, no cancellation at its checkpoints: its reports mapped into its share. */
  lemma BothPhasesShare(user: string, i: nat, cookies: Credentials, path: string, cwd: string,
                        cancel: Flags, cp: nat, ok: Collaborator)
    requires i < 2 && !cancel(cp) && !cancel(cp + 1) && !cancel(cp + 2)
    ensures Values(Lift(user, i, 2, Media(user, cookies, path, cwd, true, true, cancel, cp, ok).events))
         == Scaled(i, 2, [0, 50, 100, 100])
  {
    BothPhasesTrace(user, cookies, path, cwd, cancel, cp, ok);
    LiftValues(user, i, 2, Media(user, cookies, path, cwd, true, true, cancel, cp, ok).events);
  }

  /** The loop of `CancelAfterFirst`: the first user in full, then the stop. */
  lemma FirstThenStop(users: seq<string>, cookies: Credentials, path: string, cwd: string,
                      cancel: Flags, cp: nat, ok: Collaborator)
    requires |users| == 2 && forall j: nat :: cancel(j) == (j >= cp + 4)
    ensures var l := Loop(users, 0, cookies, path, cwd, true, true, cancel, cp, ok);
            l.next == cp + 5 && Values(l.effects) == [0.0, 25.0, 50.0, 50.0] &&
            Processed(l.effects) == [users[0]] && Invocations(l.effects) == [(users[0], Stories), (users[0], Posts)]
  {
    var m0 := Media(users[0], cookies, path, cwd, true, true, cancel, cp + 1, ok);
    assert !cancel(cp) && !cancel(cp + 1) && !cancel(cp + 2) && !cancel(cp + 3);
    LoopStep(users, 0, cookies, path, cwd, true, true, cancel, cp, ok);
    BothPhasesTrace(users[0], cookies, path, cwd, cancel, cp + 1, ok);
    MediaCheckpoints(users[0], cookies, path, cwd, true, true, cancel, cp + 1, ok);
    assert Calls(m0.events) == [Stories, Posts];
    assert m0.next == cp + 4;
    assert cancel(cp + 4);
    LoopStop(users, 1, cookies, path, cwd, true, true, cancel, cp + 4, ok);
    LiftValues(users[0], 0, 2, m0.events);
    LiftInvocations(users[0], 0, 2, m0.events);
    ScaledFirstOfTwo();
  }

  /**
   * Two users, both phases, and the flag set just before the second user's
   * checkpoint: the first user runs in full, the loop stops, the run reports
   * cancellation, and the bar is left at 50 rather than moved to 100.
   */
  lemma CancelAfterFirst(users: seq<string>, cookies: Credentials, path: string, cwd: string,
                         cancel: Flags, cp: nat, ok: Collaborator, init: real)
    requires |users| == 2 && forall j: nat :: cancel(j) == (j >= cp + 4)
    ensures var fx := Run(users, cookies, path, cwd, true, true, cancel, cp, ok);
            Values(fx) == [0.0, 25.0, 50.0, 50.0] && Progress(fx, init) == 50.0 &&
            Processed(fx) == [users[0]] && Invocations(fx) == [(users[0], Stories), (users[0], Posts)] &&
            Entries(fx) != [] && Entries(fx)[|Entries(fx)| - 1] == FinishedWithCancel
  {
    var l := Loop(users, 0, cookies, path, cwd, true, true, cancel, cp, ok);
    FirstThenStop(users, cookies, path, cwd, cancel, cp, ok);
    assert cancel(l.next);
    var fx := Run(users, cookies, path, cwd, true, true, cancel, cp, ok);
    assert fx == l.effects + Finish(true);
    FinishViews(l.effects, true);
    ProgressIsLast(fx, init);
  }
}
