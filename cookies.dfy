/**
 * How `start_download_thread` turns the pasted cookie text into a credential
 * mapping: three strategies tried in a fixed order, the first that yields a
 * value wins. The first two call Python's `ast.literal_eval` and `json.loads`;
 * they are parameters here (`snippet`, `json`), each giving the mapping it
 * produced or `None` when it raised or produced nothing. The third, the
 * `key=value; key2=value2` strategy, is plain string handling and is modelled
 * exactly.
 */
module Cookies {

  import opened Wrappers
  import opened Text

  /** A credential set: cookie name to cookie value. */
  type Credentials = map<string, string>

  /** The text whose presence enables the code-snippet strategy. */
  const Marker: string := "cookies = {"

  /** A segment that `item.strip()` empties. */
  predicate Blank(item: string)
  {
    Strip(item) == []
  }

  /** `r` is what remains of `parts` after leaving some items out: the rest keep their order. */
  predicate Subsequence(r: seq<string>, parts: seq<string>)
  {
    r == [] ||
    (parts != [] &&
     if r[0] == parts[0] then Subsequence(r[1..], parts[1..]) else Subsequence(r, parts[1..]))
  }

  /** The segments that survive `if item.strip()`, in order. */
  function NonBlank(parts: seq<string>): (r: seq<string>)
    ensures Subsequence(r, parts)
    ensures forall k :: 0 <= k < |r| ==> !Blank(r[k]) && r[k] in parts
    ensures forall p :: p in parts && !Blank(p) ==> p in r
  {
    if parts == [] then []
    else if !Blank(parts[0]) then [parts[0]] + NonBlank(parts[1..])
    else NonBlank(parts[1..])
  }

  /** `[item for item in text.split(';') if item.strip()]` */
  function Segments(text: string): seq<string>
  {
    NonBlank(Split(text, ';'))
  }

  /** `all('=' in item for item in items)` */
  predicate AllPairs(items: seq<string>)
  {
    forall k :: 0 <= k < |items| ==> '=' in items[k]
  }

  /** The name half of `item.split('=', 1)`, stripped. */
  function Key(item: string): string
    requires '=' in item
  {
    Strip(item[..IndexOf(item, '=')])
  }

  /** The value half of `item.split('=', 1)`, stripped; it may itself hold `=`. */
  function Value(item: string): string
    requires '=' in item
  {
    Strip(item[IndexOf(item, '=') + 1..])
  }

  /** The names the segments carry, in order. */
  function Names(items: seq<string>): (r: seq<string>)
    requires AllPairs(items)
    ensures |r| == |items|
  {
    seq(|items|, j requires 0 <= j < |items| => Key(items[j]))
  }

  /** The dictionary comprehension over the segments: a later segment overrides an earlier one. */
  function Collect(items: seq<string>): Credentials
    requires AllPairs(items)
  {
    if items == [] then map[]
    else Collect(items[..|items| - 1])[Key(items[|items| - 1]) := Value(items[|items| - 1])]
  }

  /** The `key=value; key2=value2` strategy: a mapping, or nothing at all. */
  function Semicolon(text: string): (r: Option<Credentials>)
    ensures r.Some? <==> AllPairs(Segments(text))
  {
    var items := Segments(text);
    if AllPairs(items) then Some(Collect(items)) else None
  }

  /** The three strategies in order; the first that yields a value wins. */
  function Interpret(text: string, snippet: string -> Option<Credentials>,
                     json: string -> Option<Credentials>): (r: Option<Credentials>)
    ensures Contains(text, Marker) && snippet(text).Some? ==> r == snippet(text)
    ensures !(Contains(text, Marker) && snippet(text).Some?) && json(text).Some? ==> r == json(text)
    ensures !(Contains(text, Marker) && snippet(text).Some?) && json(text).None? ==> r == Semicolon(text)
    ensures r.None? <==>
              (Contains(text, Marker) ==> snippet(text).None?) &&
              json(text).None? && Semicolon(text).None?
  {
    var first := if Contains(text, Marker) then snippet(text) else None;
    if first.Some? then first
    else
      var second := json(text);
      if second.Some? then second else Semicolon(text)
  }

  /** Without the marker the snippet parser is never consulted, whatever it would say. */
  lemma SnippetNeedsMarker(text: string, snippet: string -> Option<Credentials>,
                           other: string -> Option<Credentials>, json: string -> Option<Credentials>)
    requires !Contains(text, Marker)
    ensures Interpret(text, snippet, json) == Interpret(text, other, json)
  {
  }

  /** Once the snippet parser yields a mapping, the JSON parser is not consulted. */
  lemma JsonOnlyWhenUnset(text: string, snippet: string -> Option<Credentials>,
                          json: string -> Option<Credentials>, other: string -> Option<Credentials>)
    requires Contains(text, Marker) && snippet(text).Some?
    ensures Interpret(text, snippet, json) == Interpret(text, snippet, other)
  {
  }

  /** A browser snippet such as `cookies = {'a': '1', 'b': '2'}`. */
  const SnippetText: string := "cookies = {'a': '1', 'b': '2'}"

  /** The snippet example carries the marker, so the snippet parser's mapping is the result. */
  lemma SnippetExample(text: string, snippet: string -> Option<Credentials>, json: string -> Option<Credentials>)
    requires text == SnippetText
    requires snippet(text) == Some(map["a" := "1", "b" := "2"])
    ensures Interpret(text, snippet, json) == Some(map["a" := "1", "b" := "2"])
  {
    assert Marker <= text;
  }

  /**
   * When a name appears in several segments, the value of the last of them
   * is the one kept.
   */
  lemma {:induction false} CollectLastWins(items: seq<string>, j: nat)
    requires AllPairs(items)
    requires j < |items|
    requires forall i :: j < i < |items| ==> Key(items[i]) != Key(items[j])
    ensures Key(items[j]) in Collect(items)
    ensures Collect(items)[Key(items[j])] == Value(items[j])
  {
    var n := |items| - 1;
    if j < n {
      assert forall i :: 0 <= i < n ==> items[..n][i] == items[i];
      CollectLastWins(items[..n], j);
    }
  }

  /** The keys of the mapping are exactly the names the segments carry. */
  lemma {:induction false} CollectKeys(items: seq<string>, k: string)
    requires AllPairs(items)
    ensures k in Collect(items) <==> k in Names(items)
  {
    if items != [] {
      var n := |items| - 1;
      CollectKeys(items[..n], k);
      assert Names(items) == Names(items[..n]) + [Key(items[n])];
    }
  }

  /**
   * The semicolon strategy yields a mapping exactly when every non-blank
   * segment holds `=`; its keys are then exactly the stripped names of the
   * segments.
   */
  lemma SemicolonMeaning(text: string, k: string)
    ensures Semicolon(text).Some? <==>
              forall p :: p in Split(text, ';') && !Blank(p) ==> '=' in p
    ensures Semicolon(text).Some? ==>
              (k in Semicolon(text).value <==> k in Names(Segments(text)))
  {
    var items := Segments(text);
    if AllPairs(items) {
      forall p | p in Split(text, ';') && !Blank(p) ensures '=' in p {
        var j :| 0 <= j < |items| && items[j] == p;
      }
      CollectKeys(items, k);
    }
  }

  /** One segment without `=` makes the whole strategy fail, with no partial mapping. */
  lemma NoPartialMapping(text: string, bad: string)
    requires bad in Split(text, ';') && !Blank(bad) && '=' !in bad
    ensures Semicolon(text) == None
  {
    var j :| 0 <= j < |Segments(text)| && Segments(text)[j] == bad;
  }

  /** Text without `;` and `=` that is not blank is one segment with no `=`: rejected. */
  lemma WordsRejected(text: string)
    requires ';' !in text && '=' !in text
    requires text != [] && !IsSpace(text[0])
    ensures Semicolon(text).None?
  {
    SplitAtom(text, ';');
    StripMeaning(text);
    assert !Blank(text);
    assert [text][1..] == [];
  }

  /** An input the semicolon strategy cannot read. */
  const NotValid: string := "not valid at all"

  /** `not valid at all` ends in the parse error unless the JSON parser accepts it. */
  lemma NotValidAtAll(snippet: string -> Option<Credentials>, json: string -> Option<Credentials>)
    requires json(NotValid).None?
    ensures Interpret(NotValid, snippet, json).None?
  {
    NotValidSemicolon();
    NotValidNoMarker();
  }

  lemma NotValidSemicolon()
    ensures Semicolon(NotValid).None?
  {
    WordsRejected(NotValid);
  }

  lemma NotValidNoMarker()
    ensures !Contains(NotValid, Marker)
  {
    NotContains(NotValid, Marker);
  }

  lemma {:induction false} NotContains(text: string, pat: string)
    requires pat != []
    requires forall i :: 0 <= i < |text| ==> text[i] != pat[0]
    ensures !Contains(text, pat)
  {
    if text != [] {
      assert !(pat <= text) by {
        assert text[0] != pat[0];
      }
      forall i | 0 <= i < |text[1..]|
        ensures text[1..][i] != pat[0]
      {
        assert text[1..][i] == text[i + 1];
      }
      NotContains(text[1..], pat);
    }
  }

  /** A lone `;` leaves no segment at all, and `all` over nothing holds: the empty mapping. */
  lemma LoneSemicolon()
    ensures Semicolon(";") == Some(map[])
  {
    SplitCons([], ';', []);
    SplitAtom([], ';');
    assert [] + [';'] + [] == ";";
  }

  /** A `key=value` list as a browser shows it, with a trailing separator. */
  const TwoPairsText: string := "a=1; b=2;"

  /** The example `a=1; b=2;` gives `{a: 1, b: 2}`. */
  lemma TwoPairs(text: string)
    requires text == TwoPairsText
    ensures Semicolon(text) == Some(map["a" := "1", "b" := "2"])
  {
    TwoPairsItems(text);
    TwoPairsCollect();
  }

  lemma TwoPairsItems(text: string)
    requires text == TwoPairsText
    ensures Segments(text) == ["a=1", " b=2"]
  {
    assert text == "a=1" + [';'] + (" b=2" + [';'] + "");
    TwoPairsBlanks();
    SegmentsTwo("a=1", " b=2");
  }

  lemma TwoPairsCollect()
    ensures AllPairs(["a=1", " b=2"])
    ensures Collect(["a=1", " b=2"]) == map["a" := "1", "b" := "2"]
  {
    TwoPairsFields();
    CollectTwo("a=1", " b=2");
  }

  lemma CollectTwo(x: string, y: string)
    requires '=' in x && '=' in y
    ensures Collect([x, y]) == map[Key(x) := Value(x), Key(y) := Value(y)]
  {
    assert Collect([x]) == map[Key(x) := Value(x)] by {
      assert [x][..0] == [];
    }
    assert [x, y][..1] == [x];
  }

  /** Two non-blank segments, each closed by `;`, are the two items, in order. */
  lemma SegmentsTwo(x: string, y: string)
    requires ';' !in x && ';' !in y && !Blank(x) && !Blank(y)
    ensures Segments(x + [';'] + (y + [';'] + [])) == [x, y]
  {
    SplitCons(x, ';', y + [';'] + []);
    SplitCons(y, ';', []);
    SplitAtom([], ';');
    var parts := [x, y, []];
    assert Split(x + [';'] + (y + [';'] + []), ';') == parts;
    assert Blank([]) by {
      StripMeaning([]);
    }
    assert parts[1..] == [y, []] && parts[1..][1..] == [[]] && parts[1..][1..][1..] == [];
    assert NonBlank(parts[1..][1..]) == [];
    assert NonBlank(parts[1..]) == [y];
  }

  lemma TwoPairsBlanks()
    ensures !Blank("a=1") && !Blank(" b=2")
  {
    StripMeaning("a=1");
    StripMeaning(" b=2");
    assert !IsSpace("a=1"[0]) && !IsSpace(" b=2"[1]);
  }

  lemma TwoPairsFields()
    ensures '=' in "a=1" && Key("a=1") == "a" && Value("a=1") == "1"
    ensures '=' in " b=2" && Key(" b=2") == "b" && Value(" b=2") == "2"
  {
    FirstField();
    SecondField();
  }

  lemma FirstField()
    ensures '=' in "a=1" && Key("a=1") == "a" && Value("a=1") == "1"
  {
    IndexOfAt("a=1", '=', 1);
    assert "a=1"[..1] == "a" && "a=1"[2..] == "1";
  }

  lemma SecondField()
    ensures '=' in " b=2" && Key(" b=2") == "b" && Value(" b=2") == "2"
  {
    IndexOfAt(" b=2", '=', 2);
    assert " b=2"[..2] == " b" && " b=2"[3..] == "2";
    assert TrimStart(" b") == "b";
  }

  // ----- the inverse: writing a mapping in the accepted `k=v;k2=v2` form -----

  /** A name and value that the semicolon form can carry unchanged. */
  predicate Writable(p: (string, string))
  {
    p.0 != [] && Strip(p.0) == p.0 && ';' !in p.0 && '=' !in p.0 &&
    Strip(p.1) == p.1 && ';' !in p.1
  }

  function Pieces(pairs: seq<(string, string)>): (r: seq<string>)
    ensures |r| == |pairs|
  {
    seq(|pairs|, i requires 0 <= i < |pairs| => pairs[i].0 + "=" + pairs[i].1)
  }

  /** The text a browser cookie header would carry for these pairs. */
  function Render(pairs: seq<(string, string)>): string
  {
    if pairs == [] then "" else Join(Pieces(pairs), ';')
  }

  /** The mapping a list of pairs denotes when a later pair overrides an earlier one. */
  function MapOf(pairs: seq<(string, string)>): Credentials
  {
    if pairs == [] then map[]
    else MapOf(pairs[..|pairs| - 1])[pairs[|pairs| - 1].0 := pairs[|pairs| - 1].1]
  }

  lemma PieceParts(p: (string, string))
    requires Writable(p)
    ensures '=' in p.0 + "=" + p.1
    ensures Key(p.0 + "=" + p.1) == p.0 && Value(p.0 + "=" + p.1) == p.1
    ensures !Blank(p.0 + "=" + p.1)
    ensures ';' !in p.0 + "=" + p.1
  {
    var s := p.0 + "=" + p.1;
    var i := IndexOf(s, '=');
    assert s[|p.0|] == '=' && s[..|p.0|] == p.0;
    IndexOfAt(s, '=', |p.0|);
    assert s[..i] == p.0 && s[i + 1..] == p.1;
    StripMeaning(p.0);
    StripMeaning(s);
    assert s[0] == p.0[0];
  }

  lemma {:induction false} CollectPieces(pairs: seq<(string, string)>)
    requires forall i :: 0 <= i < |pairs| ==> Writable(pairs[i])
    ensures AllPairs(Pieces(pairs))
    ensures Collect(Pieces(pairs)) == MapOf(pairs)
  {
    forall i | 0 <= i < |pairs| ensures '=' in Pieces(pairs)[i] {
      PieceParts(pairs[i]);
    }
    if pairs != [] {
      var n := |pairs| - 1;
      assert Pieces(pairs)[..n] == Pieces(pairs[..n]);
      CollectPieces(pairs[..n]);
      PieceParts(pairs[n]);
    }
  }

  lemma {:induction false} NonBlankKeeps(parts: seq<string>)
    requires forall k :: 0 <= k < |parts| ==> !Blank(parts[k])
    ensures NonBlank(parts) == parts
  {
    if parts != [] {
      NonBlankKeeps(parts[1..]);
    }
  }

  /**
   * Round trip: writing pairs as `k=v;k2=v2` and reading the text back with
   * the semicolon strategy gives the mapping those pairs denote.
   */
  lemma RenderRoundTrip(pairs: seq<(string, string)>)
    requires forall i :: 0 <= i < |pairs| ==> Writable(pairs[i])
    ensures Semicolon(Render(pairs)) == Some(MapOf(pairs))
  {
    var ps := Pieces(pairs);
    forall k | 0 <= k < |ps| ensures ';' !in ps[k] && !Blank(ps[k]) {
      PieceParts(pairs[k]);
    }
    if pairs == [] {
      assert Split("", ';') == [[]];
    } else {
      SplitJoin(ps, ';');
      NonBlankKeeps(ps);
    }
    CollectPieces(pairs);
  }
}
