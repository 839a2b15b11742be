/**
 * The application window's state and the handlers that change it: the stored
 * username list and the sorted names that carry a checkbox variable,
 * adding and removing users, validating a download request (users, phases,
 * credentials) and the batch run that follows it.
 *
 * `history` records every effect on the log panel and the progress bar, so
 * that the real fields can be tied to the pure models in `Journal` and
 * `Batch`.
 */
module Gui {

  import opened Wrappers
  import opened Text
  import opened Names
  import opened Roster
  import opened Cookies
  import opened Downloader
  import opened Journal
  import opened Batch

  /** How `start_download_thread` (or `quick_download`) ends. */
  datatype StartResult =
    | NoName                      // quick download with an empty name
    | NoUsers                     // nothing selected: a warning is logged
    | NoPhase                     // neither stories nor posts: an error dialog
    | NoCookies                   // stored credentials empty: an error dialog
    | Unparseable                 // no strategy yields a mapping: an error dialog
    | Started(users: seq<string>, cookies: Credentials, path: string)

  /**
   * The decision `start_download_thread` takes, in the order of its checks:
   * users, then phases, then stored text, then the three interpretations.
   */
  function Launch(chosen: seq<string>, stories: bool, posts: bool, stored: string, path: string,
                  snippet: string -> Option<Credentials>, json: string -> Option<Credentials>): StartResult
  {
    if chosen == [] then NoUsers
    else if !stories && !posts then NoPhase
    else if Strip(stored) == [] then NoCookies
    else
      match Interpret(Strip(stored), snippet, json)
      case None => Unparseable
      case Some(c) => Started(chosen, c, path)
  }

  /**
   * A download starts exactly when there are users, a phase and a usable
   * credential mapping; it then has at least one phase, so `download_media`
   * never divides by a zero step count, and its credentials are those the
   * strategy chain yields for the stripped stored text.
   */
  lemma LaunchStarts(chosen: seq<string>, stories: bool, posts: bool, stored: string, path: string,
                     snippet: string -> Option<Credentials>, json: string -> Option<Credentials>)
    ensures var r := Launch(chosen, stories, posts, stored, path, snippet, json);
            (r.Started? <==> chosen != [] && TotalSteps(stories, posts) > 0 && Strip(stored) != [] &&
                             Interpret(Strip(stored), snippet, json).Some?) &&
            (r.Started? ==> r.users == chosen && r.path == path &&
                            Some(r.cookies) == Interpret(Strip(stored), snippet, json))
  {
  }

  /**
   * The checks come in order: without users nothing else is looked at; with
   * users but no phase the credentials are not looked at; and stored text that
   * is only whitespace is refused before any parser sees it.
   */
  lemma LaunchOrder(chosen: seq<string>, stories: bool, posts: bool, stored: string, stored': string, path: string,
                    snippet: string -> Option<Credentials>, json: string -> Option<Credentials>)
    ensures chosen == [] ==> Launch(chosen, stories, posts, stored, path, snippet, json) == NoUsers
    ensures chosen != [] && !stories && !posts ==>
              Launch(chosen, stories, posts, stored, path, snippet, json) == NoPhase
    ensures chosen != [] && (stories || posts) && AllSpace(stored) ==>
              Launch(chosen, stories, posts, stored, path, snippet, json) == NoCookies
    ensures chosen == [] || (!stories && !posts) ==>
              Launch(chosen, stories, posts, stored, path, snippet, json) ==
              Launch(chosen, stories, posts, stored', path, snippet, json)
  {
    StripMeaning(stored);
  }

  class App {
    var usernames: seq<string>     // config["usernames"]
    var listing: seq<string>       // the keys of `user_vars`: the distinct stored names, ascending
    var checked: set<string>       // the names whose box is ticked
    var cookieText: string         // config["cookies"]
    var downloadPath: string       // config["download_path"]
    var cancelSet: bool            // cancel_event
    var progress: real             // progress_var
    var log: seq<Entry>            // the log panel
    ghost var history: seq<Effect>

    ghost predicate Valid()
      reads this
    {
      StrictlySorted(listing) && Elems(listing) == Elems(usernames) && checked <= Elems(listing) &&
      log == Entries(history) && progress == Progress(history, 0.0)
    }

    /** The window as it opens on a loaded configuration, announcing itself in the log. */
    constructor (names: seq<string>, stored: string, path: string)
      ensures Valid()
      ensures usernames == names && listing == Listing(names) && checked == {}
      ensures cookieText == stored && downloadPath == path && !cancelSet
      ensures history == [Write(Ready), Write(LoadingConfig)] && log == [Ready, LoadingConfig]
      ensures progress == 0.0
    {
      usernames := names;
      listing := Listing(names);
      checked := {};
      cookieText := stored;
      downloadPath := path;
      cancelSet := false;
      progress := 0.0;
      log := [];
      history := [];
      new;
      Emit([Write(Ready), Write(LoadingConfig)]);
    }

    /** The keys of `user_vars`, in insertion order, are the sorted, de-duplicated stored list. */
    lemma ListingMatches()
      requires Valid()
      ensures listing == Listing(usernames)
    {
      SortedUnique(listing, Listing(usernames));
    }

    /** `get_selected_users`: the ticked names, in the order of `user_vars`. */
    function SelectedUsers(): (r: seq<string>)
      reads this
      requires Valid()
      ensures StrictlySorted(r) && Elems(r) == checked
    {
      Only(listing, checked)
    }

    /** The number on the start button is the number of ticked boxes. */
    function StartButtonCount(): (r: nat)
      reads this
      requires Valid()
      ensures r == |checked|
    {
      var s := SelectedUsers();
      SortedNoDup(s);
      DistinctSize(s);
      |s|
    }

    /** Appends effects to the log panel and the progress bar. */
    method Emit(fx: seq<Effect>)
      requires Valid()
      modifies this
      ensures Valid()
      ensures history == old(history) + fx
      ensures log == old(log) + Entries(fx) && progress == Progress(fx, old(progress))
      ensures usernames == old(usernames) && listing == old(listing) && checked == old(checked)
      ensures cookieText == old(cookieText) && downloadPath == old(downloadPath) && cancelSet == old(cancelSet)
    {
      EntriesAppend(history, fx);
      ProgressAppend(history, fx, 0.0);
      log := log + Entries(fx);
      progress := Progress(fx, progress);
      history := history + fx;
    }

    /** `update_user_listbox`: rebuild the checkboxes from the stored list, none ticked. */
    method UpdateUserListbox()
      modifies this
      ensures listing == Listing(usernames) && checked == {}
      ensures usernames == old(usernames) && history == old(history) && log == old(log)
      ensures progress == old(progress) && cookieText == old(cookieText)
      ensures downloadPath == old(downloadPath) && cancelSet == old(cancelSet)
    {
      listing := Listing(usernames);
      checked := {};
    }

    /** Ticking or unticking one box. */
    method SetChecked(name: string, on: bool)
      requires Valid() && name in listing
      modifies this
      ensures Valid()
      ensures checked == if on then old(checked) + {name} else old(checked) - {name}
      ensures usernames == old(usernames) && listing == old(listing) && history == old(history)
      ensures cookieText == old(cookieText) && downloadPath == old(downloadPath) && cancelSet == old(cancelSet)
    {
      checked := if on then checked + {name} else checked - {name};
    }

    /**
     * `save_settings`: the cookie box's text, stripped, and the path field
     * become the stored values that the next start reads; `save_config` then
     * logs that the settings were saved.
     */
    method SaveSettings(typed: string, path: string)
      requires Valid()
      modifies this
      ensures Valid()
      ensures cookieText == Strip(typed) && downloadPath == path
      ensures Strip(cookieText) == cookieText
      ensures cookieText == [] <==> AllSpace(typed)
      ensures history == old(history) + [Write(SettingsSaved)]
      ensures usernames == old(usernames) && listing == old(listing) && checked == old(checked)
      ensures cancelSet == old(cancelSet)
    {
      cookieText := Strip(typed);
      downloadPath := path;
      StripMeaning(typed);
      StripTrimmed(cookieText);
      Emit([Write(SettingsSaved)]);
    }

    /**
     * `add_user`: the stripped entry is appended when it is non-empty and not
     * already stored; the listing is rebuilt (which clears every tick). An
     * empty entry or a stored name only logs a message.
     */
    method AddUser(entry: string)
      requires Valid()
      modifies this
      ensures Valid()
      ensures var name := Strip(entry);
              if name != [] && name !in old(usernames) then
                usernames == old(usernames) + [name] && Elems(listing) == Elems(old(listing)) + {name} &&
                checked == {} && history == old(history) + [Write(Added(name))]
              else
                usernames == old(usernames) && listing == old(listing) && checked == old(checked) &&
                history == old(history) + [Write(if name == [] then EmptyUsername else AlreadyListed(name))]
      ensures NoDup(old(usernames)) ==> NoDup(usernames)
      ensures cookieText == old(cookieText) && downloadPath == old(downloadPath) && cancelSet == old(cancelSet)
    {
      var name := Strip(entry);
      if name != [] && name !in usernames {
        ghost var before := usernames;
        usernames := usernames + [name];
        assert Elems(usernames) == Elems(before) + {name};
        UpdateUserListbox();
        Emit([Write(Added(name))]);
        forall i, j | 0 <= i < j < |usernames| && NoDup(before)
          ensures usernames[i] != usernames[j]
        {
          if j == |before| {
            assert usernames[i] == before[i];
          }
        }
      } else if name == [] {
        Emit([Write(EmptyUsername)]);
      } else {
        Emit([Write(AlreadyListed(name))]);
      }
    }

    /**
     * `remove_selected_users`: each ticked name, in screen order, is removed
     * once from the stored list; the listing is rebuilt only if something was
     * removed. The count is the number of ticked boxes; the stored list loses
     * exactly the ticked names, once each, and when it had no repetitions the
     * remaining names keep their order.
     */
    method RemoveSelectedUsers() returns (count: nat)
      requires Valid()
      modifies this
      ensures Valid()
      ensures count == |old(checked)|
      ensures multiset(usernames) == multiset(old(usernames)) - multiset(old(SelectedUsers()))
      ensures NoDup(old(usernames)) ==> usernames == Without(old(usernames), old(checked))
      ensures count > 0 ==> checked == {} && history == old(history) + [Write(Removed(count))]
      ensures count == 0 ==> usernames == old(usernames) && listing == old(listing) && checked == old(checked) &&
                             history == old(history) + [Write(NothingToRemove)]
      ensures cookieText == old(cookieText) && downloadPath == old(downloadPath) && cancelSet == old(cancelSet)
    {
      var remaining;
      SortedNoDup(listing);
      RemovalOutcome(usernames, listing, checked);
      remaining, count := RemoveTicked(usernames, listing, checked);
      usernames := remaining;
      if count > 0 {
        UpdateUserListbox();
        Emit([Write(Removed(count))]);
      } else {
        Emit([Write(NothingToRemove)]);
      }
    }

    /**
     * `start_download_thread`: the users are the given ones, or the ticked
     * ones; then the checks of `Launch` in order, with the stored text
     * stripped and tried against the snippet, JSON and `key=value;` readings.
     * Only a successful start clears the cancel flag and resets the bar to 0;
     * an empty selection logs a warning; the other refusals show a dialog and
     * change nothing.
     */
    method StartDownloadThread(selection: Option<seq<string>>, stories: bool, posts: bool,
                               snippet: string -> Option<Credentials>, json: string -> Option<Credentials>)
      returns (res: StartResult)
      requires Valid()
      modifies this
      ensures Valid()
      ensures res == Launch(if selection.Some? then selection.value else old(SelectedUsers()),
                            stories, posts, old(cookieText), old(downloadPath), snippet, json)
      ensures res.NoUsers? ==> history == old(history) + [Write(NoUsersSelected)] && cancelSet == old(cancelSet)
      ensures res.Started? ==> history == old(history) + [SetProgress(0.0)] && progress == 0.0 && !cancelSet
      ensures !res.NoUsers? && !res.Started? ==> history == old(history) && cancelSet == old(cancelSet)
      ensures usernames == old(usernames) && listing == old(listing) && checked == old(checked)
      ensures cookieText == old(cookieText) && downloadPath == old(downloadPath)
    {
      var chosen := if selection.None? then SelectedUsers() else selection.value;
      if chosen == [] {
        Emit([Write(NoUsersSelected)]);
        return NoUsers;
      }
      if !stories && !posts {
        return NoPhase;
      }
      var text := Strip(cookieText);
      if text == [] {
        return NoCookies;
      }
      var cookies := ReadCookies(text, snippet, json);
      if cookies.None? {
        return Unparseable;
      }
      cancelSet := false;
      Emit([SetProgress(0.0)]);
      JournalOne(SetProgress(0.0));
      return Started(chosen, cookies.value, downloadPath);
    }

    /**
     * `quick_download`: an empty (after stripping) name logs an error;
     * otherwise the request goes through `start_download_thread` with that one
     * name, so a started quick download is for exactly that user.
     */
    method QuickDownload(entry: string, stories: bool, posts: bool,
                         snippet: string -> Option<Credentials>, json: string -> Option<Credentials>)
      returns (res: StartResult)
      requires Valid()
      modifies this
      ensures Valid()
      ensures Strip(entry) == [] ==>
                res == NoName && history == old(history) + [Write(QuickEmpty)] && cancelSet == old(cancelSet)
      ensures Strip(entry) != [] ==>
                res == Launch([Strip(entry)], stories, posts, old(cookieText), old(downloadPath), snippet, json)
      ensures res.Started? ==> res.users == [Strip(entry)] && TotalSteps(stories, posts) > 0
      ensures res.Started? ==> history == old(history) + [SetProgress(0.0)] && progress == 0.0 && !cancelSet
      ensures !res.NoName? && !res.Started? ==> history == old(history) && cancelSet == old(cancelSet)
      ensures usernames == old(usernames) && listing == old(listing) && checked == old(checked)
      ensures cookieText == old(cookieText) && downloadPath == old(downloadPath)
    {
      var name := Strip(entry);
      if name == [] {
        Emit([Write(QuickEmpty)]);
        return NoName;
      }
      res := StartDownloadThread(Some([name]), stories, posts, snippet, json);
      LaunchStarts([name], stories, posts, old(cookieText), old(downloadPath), snippet, json);
    }

    /**
     * `run_downloads`, the body of the download thread: the effects on the log
     * and the bar are exactly those of `Batch.Run`, whose lemmas say what they
     * are; `cwd` is the working directory when the thread starts.
     */
    method RunDownloads(users: seq<string>, cookies: Credentials, path: string, cwd: string,
                        stories: bool, posts: bool, cancel: Flags, cp: nat, ok: Collaborator)
      requires Valid()
      modifies this
      ensures Valid()
      ensures history == old(history) + Run(users, cookies, path, cwd, stories, posts, cancel, cp, ok)
      ensures log == old(log) + Entries(Run(users, cookies, path, cwd, stories, posts, cancel, cp, ok))
      ensures progress == Progress(Run(users, cookies, path, cwd, stories, posts, cancel, cp, ok), old(progress))
      ensures usernames == old(usernames) && listing == old(listing) && checked == old(checked)
      ensures cookieText == old(cookieText) && downloadPath == old(downloadPath) && cancelSet == old(cancelSet)
    {
      ghost var fx := Run(users, cookies, path, cwd, stories, posts, cancel, cp, ok);
      var at := RunLoop(users, cookies, path, cwd, stories, posts, cancel, cp, ok);
      ghost var l := Loop(users, 0, cookies, path, cwd, stories, posts, cancel, cp, ok);
      ghost var h1 := history;
      // after the loop
      Emit(Finish(cancel(at)));
      assert history == old(history) + l.effects + Finish(cancel(at));
      assert fx == l.effects + Finish(cancel(at));
      assert old(history) + l.effects + Finish(cancel(at)) == old(history) + fx;
      EntriesAppend(old(history), fx);
      ProgressAppend(old(history), fx, 0.0);
    }

    /**
     * The `for` loop of `run_downloads`: its effects are those of `Batch.Loop`
     * from the first user, and it returns the number of the next read of the
     * cancel flag.
     */
    method RunLoop(users: seq<string>, cookies: Credentials, path: string, cwd: string,
                   stories: bool, posts: bool, cancel: Flags, cp: nat, ok: Collaborator)
      returns (at: nat)
      requires Valid()
      modifies this
      ensures Valid()
      ensures var l := Loop(users, 0, cookies, path, cwd, stories, posts, cancel, cp, ok);
              history == old(history) + l.effects && at == l.next
      ensures usernames == old(usernames) && listing == old(listing) && checked == old(checked)
      ensures cookieText == old(cookieText) && downloadPath == old(downloadPath) && cancelSet == old(cancelSet)
    {
      ghost var whole := Loop(users, 0, cookies, path, cwd, stories, posts, cancel, cp, ok);
      var i := 0;
      at := cp;
      var stopped := false;
      while i < |users| && !stopped
        invariant Valid() && 0 <= i <= |users|
        invariant !stopped ==>
                    var rest := Loop(users, i, cookies, path, cwd, stories, posts, cancel, at, ok);
                    old(history) + whole.effects == history + rest.effects && whole.next == rest.next
        invariant stopped ==> history == old(history) + whole.effects && at == whole.next
        invariant usernames == old(usernames) && listing == old(listing) && checked == old(checked)
        invariant cookieText == old(cookieText) && downloadPath == old(downloadPath) && cancelSet == old(cancelSet)
        decreases |users| - i, if stopped then 0 else 1
      {
        if cancel(at) {
          StopUser(users, i, cookies, path, cwd, stories, posts, cancel, at, ok);
          at := at + 1;
          stopped := true;
        } else {
          at := VisitUser(users, i, cookies, path, cwd, stories, posts, cancel, at, ok);
          i := i + 1;
        }
      }
    }

    /** The checkpoint of the loop of `run_downloads` found the flag set: say so and stop. */
    method StopUser(users: seq<string>, i: nat, cookies: Credentials, path: string, cwd: string,
                    stories: bool, posts: bool, cancel: Flags, at: nat, ok: Collaborator)
      requires Valid() && i < |users| && cancel(at)
      modifies this
      ensures Valid()
      ensures var l := Loop(users, i, cookies, path, cwd, stories, posts, cancel, at, ok);
              history == old(history) + l.effects && l.next == at + 1
      ensures usernames == old(usernames) && listing == old(listing) && checked == old(checked)
      ensures cookieText == old(cookieText) && downloadPath == old(downloadPath) && cancelSet == old(cancelSet)
    {
      Emit([Write(RunCancelled)]);
    }

    /** One pass of the loop of `run_downloads` for a user whose checkpoint found the flag clear. */
    method VisitUser(users: seq<string>, i: nat, cookies: Credentials, path: string, cwd: string,
                     stories: bool, posts: bool, cancel: Flags, at: nat, ok: Collaborator)
      returns (next: nat)
      requires Valid() && i < |users| && !cancel(at)
      modifies this
      ensures Valid()
      ensures var l := Loop(users, i, cookies, path, cwd, stories, posts, cancel, at, ok);
              var rest := Loop(users, i + 1, cookies, path, cwd, stories, posts, cancel, next, ok);
              old(history) + l.effects == history + rest.effects && l.next == rest.next
      ensures usernames == old(usernames) && listing == old(listing) && checked == old(checked)
      ensures cookieText == old(cookieText) && downloadPath == old(downloadPath) && cancelSet == old(cancelSet)
    {
      ghost var h0 := history;
      ghost var step;
      step, next := DownloadUser(users, i, cookies, path, cwd, stories, posts, cancel, at, ok);
      ghost var l := Loop(users, i, cookies, path, cwd, stories, posts, cancel, at, ok);
      ghost var rest := Loop(users, i + 1, cookies, path, cwd, stories, posts, cancel, next, ok);
      assert l.effects == step + rest.effects && l.next == rest.next by {
        LoopEnter(users, i, cookies, path, cwd, stories, posts, cancel, at, ok);
      }
      Regroup(h0, step, rest.effects);
    }

    /** Announce user `i` and run `download_media` for them. */
    method DownloadUser(users: seq<string>, i: nat, cookies: Credentials, path: string, cwd: string,
                        stories: bool, posts: bool, cancel: Flags, at: nat, ok: Collaborator)
      returns (ghost step: seq<Effect>, next: nat)
      requires Valid() && i < |users|
      modifies this
      ensures Valid()
      ensures var m := Media(users[i], cookies, path, cwd, stories, posts, cancel, at + 1, ok);
              next == m.next &&
              step == [Write(Processing(i + 1, |users|, users[i]))] + Lift(users[i], i, |users|, m.events) &&
              history == old(history) + step
      ensures usernames == old(usernames) && listing == old(listing) && checked == old(checked)
      ensures cookieText == old(cookieText) && downloadPath == old(downloadPath) && cancelSet == old(cancelSet)
    {
      ghost var h0 := history;
      var head := [Write(Processing(i + 1, |users|, users[i]))];
      Emit(head);
      var lifted;
      lifted, next := LiftedMedia(users, i, cookies, path, cwd, stories, posts, cancel, at + 1, ok);
      step := head + lifted;
      Regroup(h0, head, lifted);
    }

    /** `download_media` for user `i`, its log lines and progress values passed through the callbacks. */
    method LiftedMedia(users: seq<string>, i: nat, cookies: Credentials, path: string, cwd: string,
                       stories: bool, posts: bool, cancel: Flags, cp: nat, ok: Collaborator)
      returns (lifted: seq<Effect>, next: nat)
      requires Valid() && i < |users|
      modifies this
      ensures Valid()
      ensures var m := Media(users[i], cookies, path, cwd, stories, posts, cancel, cp, ok);
              next == m.next && lifted == Lift(users[i], i, |users|, m.events) && history == old(history) + lifted
      ensures usernames == old(usernames) && listing == old(listing) && checked == old(checked)
      ensures cookieText == old(cookieText) && downloadPath == old(downloadPath) && cancelSet == old(cancelSet)
    {
      var events;
      events, next := DownloadMedia(users[i], cookies, path, cwd, stories, posts, cancel, cp, ok);
      lifted := Lift(users[i], i, |users|, events);
      Emit(lifted);
    }
  }

  /**
   * The cascade of `start_download_thread` on the stripped text: the snippet
   * reading when the text holds the marker, then the JSON reading, then the
   * `key=value;` reading, each tried only when the ones before gave nothing.
   */
  method ReadCookies(text: string, snippet: string -> Option<Credentials>, json: string -> Option<Credentials>)
    returns (cookies: Option<Credentials>)
    ensures cookies == Interpret(text, snippet, json)
  {
    cookies := None;
    if Contains(text, Marker) {
      cookies := snippet(text);
    }
    if cookies.None? {
      cookies := json(text);
    }
    if cookies.None? {
      cookies := Semicolon(text);
    }
  }

  /**
   * The loop of `remove_selected_users`: walk the checkboxes in screen order
   * and remove each ticked name once from the stored list, counting them.
   */
  method RemoveTicked(names: seq<string>, shown: seq<string>, ticked: set<string>)
    returns (remaining: seq<string>, count: nat)
    requires NoDup(shown) && Elems(shown) == Elems(names)
    ensures multiset(Only(shown, ticked)) <= multiset(names)
    ensures remaining == RemoveEach(names, Only(shown, ticked))
    ensures count == |Only(shown, ticked)| && |remaining| == |names| - count
  {
    remaining := names;
    count := 0;
    var i := 0;
    ghost var picked: seq<string> := [];
    while i < |shown|
      invariant 0 <= i <= |shown|
      invariant picked == Only(shown[..i], ticked)
      invariant multiset(picked) <= multiset(names)
      invariant remaining == RemoveEach(names, picked) && count + |remaining| == |names|
    {
      var name := shown[i];
      if name in ticked {
        TickedStep(names, shown, ticked, i);
        remaining := RemoveFirst(remaining, name);
        count := count + 1;
      } else {
        SkippedStep(names, shown, ticked, i);
      }
      picked := Only(shown[..i + 1], ticked);
      i := i + 1;
    }
    TakeAll(shown);
  }

  lemma TakeAll(s: seq<string>)
    ensures s[..|s|] == s
  {
  }

  lemma TickedStep(names: seq<string>, shown: seq<string>, ticked: set<string>, i: nat)
    requires NoDup(shown) && Elems(shown) == Elems(names) && i < |shown| && shown[i] in ticked
    ensures var picked := Only(shown[..i], ticked);
            multiset(picked) <= multiset(names) &&
            shown[i] in RemoveEach(names, picked) &&
            multiset(Only(shown[..i + 1], ticked)) <= multiset(names) &&
            RemoveFirst(RemoveEach(names, picked), shown[i]) == RemoveEach(names, Only(shown[..i + 1], ticked)) &&
            |Only(shown[..i + 1], ticked)| == |picked| + 1
  {
    PickNext(names, shown, ticked, i);
    RemoveEachSnoc(names, Only(shown[..i], ticked), shown[i]);
  }

  lemma SkippedStep(names: seq<string>, shown: seq<string>, ticked: set<string>, i: nat)
    requires NoDup(shown) && Elems(shown) == Elems(names) && i < |shown| && shown[i] !in ticked
    ensures Only(shown[..i + 1], ticked) == Only(shown[..i], ticked)
  {
    PickNext(names, shown, ticked, i);
  }

  lemma PickNext(names: seq<string>, shown: seq<string>, ticked: set<string>, i: nat)
    requires NoDup(shown) && Elems(shown) == Elems(names) && i < |shown|
    ensures var next := Only(shown[..i + 1], ticked);
            next == Only(shown[..i], ticked) + (if shown[i] in ticked then [shown[i]] else []) &&
            multiset(next) <= multiset(names)
  {
    assert shown[..i + 1] == shown[..i] + [shown[i]];
    OnlySnoc(shown[..i], shown[i], ticked);
    var next := Only(shown[..i + 1], ticked);
    assert NoDup(shown[..i + 1]);
    assert Elems(shown[..i + 1]) <= Elems(shown);
    OnlyNoDup(shown[..i + 1], ticked);
    DistinctFits(next, names);
  }

  /**
   * The ticked names in listing order can each be taken once from the stored
   * list, there is one per ticked box, and on a list without repetitions
   * taking them leaves exactly the unticked names.
   */
  lemma RemovalOutcome(names: seq<string>, shown: seq<string>, ticked: set<string>)
    requires StrictlySorted(shown) && Elems(shown) == Elems(names) && ticked <= Elems(shown)
    ensures var sel := Only(shown, ticked);
            multiset(sel) <= multiset(names) && |sel| == |ticked| &&
            (NoDup(names) ==> RemoveEach(names, sel) == Without(names, ticked))
  {
    var sel := Only(shown, ticked);
    assert Elems(sel) == ticked;
    SortedNoDup(sel);
    DistinctSize(sel);
    DistinctFits(sel, names);
    if NoDup(names) {
      RemoveEachIsFilter(names, sel);
    }
  }

  /** A sequence without repetitions has as many elements as its set. */
  lemma {:induction false} DistinctSize(s: seq<string>)
    requires NoDup(s)
    ensures |Elems(s)| == |s|
  {
    if s != [] {
      NoDupTail(s);
      DistinctSize(s[1..]);
      assert Elems(s) == {s[0]} + Elems(s[1..]) by {
        assert s == [s[0]] + s[1..];
      }
      assert s[0] !in Elems(s[1..]);
    }
  }
}
