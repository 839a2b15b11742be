/**
 * What the application does to the world it shows the user: lines written to
 * the log panel, values given to the progress bar, changes of working
 * directory and calls into the scraping library, in the order they happen.
 * The wording of the log lines is not modelled, only which line it is and the
 * values it mentions.
 */
module Journal {

  import opened Downloader

  datatype Entry =
    | Worker(user: string, note: Note)                    // a line from `download_media`
    | Processing(position: nat, total: nat, user: string) // "Processing user k of n"
    | RunCancelled                                        // the batch loop saw the cancel flag
    | AllCompleted
    | FinishedWithCancel
    | Added(user: string)
    | EmptyUsername
    | AlreadyListed(user: string)
    | Removed(count: nat)
    | NothingToRemove
    | NoUsersSelected
    | QuickEmpty
    | Ready                                               // the window has opened
    | LoadingConfig                                       // "Loading config from config.json..."
    | SettingsSaved                                       // `save_config` wrote the file

  datatype Effect =
    | SetProgress(value: real)
    | Write(entry: Entry)
    | Chdir(path: string)
    | Invoke(user: string, phase: Phase)

  /** The values given to the progress bar, in order. */
  function Values(fx: seq<Effect>): seq<real>
  {
    if fx == [] then []
    else (if fx[0].SetProgress? then [fx[0].value] else []) + Values(fx[1..])
  }

  /** The log panel's lines, in order. */
  function Entries(fx: seq<Effect>): seq<Entry>
  {
    if fx == [] then []
    else (if fx[0].Write? then [fx[0].entry] else []) + Entries(fx[1..])
  }

  /** The calls into the scraping library, in order. */
  function Invocations(fx: seq<Effect>): seq<(string, Phase)>
  {
    if fx == [] then []
    else (if fx[0].Invoke? then [(fx[0].user, fx[0].phase)] else []) + Invocations(fx[1..])
  }

  /** The users the batch loop announced it was processing, in order. */
  function Processed(fx: seq<Effect>): seq<string>
  {
    if fx == [] then []
    else (if fx[0].Write? && fx[0].entry.Processing? then [fx[0].entry.user] else []) + Processed(fx[1..])
  }

  /** The value the progress bar shows after `fx`, starting from `init`. */
  function Progress(fx: seq<Effect>, init: real): real
  {
    if fx == [] then init
    else Progress(fx[1..], if fx[0].SetProgress? then fx[0].value else init)
  }

  lemma JournalAppend(a: seq<Effect>, b: seq<Effect>)
    ensures Values(a + b) == Values(a) + Values(b)
    ensures Entries(a + b) == Entries(a) + Entries(b)
    ensures Invocations(a + b) == Invocations(a) + Invocations(b)
    ensures Processed(a + b) == Processed(a) + Processed(b)
    ensures forall init :: Progress(a + b, init) == Progress(b, Progress(a, init))
  {
    ValuesAppend(a, b);
    EntriesAppend(a, b);
    InvocationsAppend(a, b);
    ProcessedAppend(a, b);
    forall init
      ensures Progress(a + b, init) == Progress(b, Progress(a, init))
    {
      ProgressAppend(a, b, init);
    }
  }

  lemma {:induction false} ValuesAppend(a: seq<Effect>, b: seq<Effect>)
    ensures Values(a + b) == Values(a) + Values(b)
  {
    if a != [] {
      assert (a + b)[1..] == a[1..] + b;
      ValuesAppend(a[1..], b);
    } else {
      assert a + b == b;
    }
  }

  lemma {:induction false} InvocationsAppend(a: seq<Effect>, b: seq<Effect>)
    ensures Invocations(a + b) == Invocations(a) + Invocations(b)
  {
    if a != [] {
      assert (a + b)[1..] == a[1..] + b;
      InvocationsAppend(a[1..], b);
    } else {
      assert a + b == b;
    }
  }

  lemma {:induction false} ProcessedAppend(a: seq<Effect>, b: seq<Effect>)
    ensures Processed(a + b) == Processed(a) + Processed(b)
  {
    if a != [] {
      assert (a + b)[1..] == a[1..] + b;
      ProcessedAppend(a[1..], b);
    } else {
      assert a + b == b;
    }
  }

  lemma {:induction false} ProgressAppend(a: seq<Effect>, b: seq<Effect>, init: real)
    ensures Progress(a + b, init) == Progress(b, Progress(a, init))
  {
    if a != [] {
      assert (a + b)[1..] == a[1..] + b;
      ProgressAppend(a[1..], b, if a[0].SetProgress? then a[0].value else init);
    } else {
      assert a + b == b;
    }
  }

  lemma {:induction false} EntriesAppend(a: seq<Effect>, b: seq<Effect>)
    ensures Entries(a + b) == Entries(a) + Entries(b)
  {
    if a != [] {
      assert (a + b)[1..] == a[1..] + b;
      EntriesAppend(a[1..], b);
    } else {
      assert a + b == b;
    }
  }

  lemma JournalOne(f: Effect)
    ensures Values([f]) == (if f.SetProgress? then [f.value] else [])
    ensures Entries([f]) == (if f.Write? then [f.entry] else [])
    ensures Invocations([f]) == (if f.Invoke? then [(f.user, f.phase)] else [])
    ensures Processed([f]) == (if f.Write? && f.entry.Processing? then [f.entry.user] else [])
  {
    assert [f][1..] == [];
  }

  /** The progress bar shows the last value given to it, or `init` if none was. */
  lemma {:induction false} ProgressIsLast(fx: seq<Effect>, init: real)
    ensures var v := Values(fx);
            Progress(fx, init) == if v == [] then init else v[|v| - 1]
  {
    if fx != [] {
      var next := if fx[0].SetProgress? then fx[0].value else init;
      ProgressIsLast(fx[1..], next);
    }
  }

  /** Regrouping a concatenation of three stretches of effects. */
  lemma Regroup(a: seq<Effect>, b: seq<Effect>, c: seq<Effect>)
    ensures a + b + c == a + (b + c)
  {
  }
}
