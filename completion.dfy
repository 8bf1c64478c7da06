/** The set of problems marked done (`getCompletedSet` / `setCompleted` in
    build-dashboard.js), kept as a JSON array of links under one key of the
    browser's `localStorage`.

    `JSON.parse` and `JSON.stringify` are parameters: `parse(raw)` is the list
    of links that `new Set(JSON.parse(raw))` iterates (the elements of a
    parsed array, the characters of a parsed string), or `None` where
    `JSON.parse` or the `Set` constructor throws; `stringify(xs)` is the text
    `JSON.stringify(xs)`. */
module Completion {
  import opened Options
  import opened Seqs

  /** `COMPLETED_KEY`. */
  const CompletedKey: string := "dashboard-completed"

  /** The links of a JavaScript `Set` in iteration order. */
  type LinkSet = seq<string>

  /** `parse` undoes `stringify` on every list, and `stringify` never yields
      the empty text (`JSON.stringify` of an array starts with `[`). */
  ghost predicate RoundTrips(parse: string -> Option<seq<string>>, stringify: seq<string> -> string) {
    forall xs :: parse(stringify(xs)) == Some(xs) && stringify(xs) != ""
  }

  /** `getCompletedSet`: the stored list as a `Set`; a missing or empty entry,
      or one that does not parse, reads as the empty set. */
  function ReadCompleted(items: map<string, string>, parse: string -> Option<seq<string>>): (r: LinkSet)
    ensures NoDup(r)
    ensures CompletedKey !in items || items[CompletedKey] == "" || parse(items[CompletedKey]).None? ==> r == []
    ensures CompletedKey in items && items[CompletedKey] != "" && parse(items[CompletedKey]).Some? ==>
      forall l :: l in r <==> l in parse(items[CompletedKey]).value
  {
    if CompletedKey !in items || items[CompletedKey] == "" then []
    else match parse(items[CompletedKey])
      case None => []
      case Some(xs) => Dedup(xs)
  }

  /** `set.add(link)` when `done`, else `set.delete(link)`. */
  function Toggle(links: LinkSet, link: string, done: bool): (r: LinkSet)
    ensures done ==> link in r
    ensures !done ==> link !in r
    ensures forall l :: l != link ==> (l in r <==> l in links)
  {
    FilterMembers(links, x => x != link);
    if done then (if link in links then links else links + [link])
    else Filter(links, x => x != link)
  }

  /** The store after `setCompleted(link, done)`: the toggled set written back
      under `COMPLETED_KEY`, every other key as it was. */
  function Updated(items: map<string, string>, link: string, done: bool,
                   parse: string -> Option<seq<string>>, stringify: seq<string> -> string): (r: map<string, string>)
    ensures r.Keys == items.Keys + {CompletedKey}
    ensures forall k :: k in items && k != CompletedKey ==> r[k] == items[k]
  {
    items[CompletedKey := stringify(Toggle(ReadCompleted(items, parse), link, done))]
  }

  /** Marking a link done adds it at the end unless present; clearing it
      removes it; the other links stay, in their order, each once. */
  lemma ToggleMeaning(links: LinkSet, link: string, done: bool)
    requires NoDup(links)
    ensures NoDup(Toggle(links, link, done))
    ensures IsSubsequence(Filter(links, x => x != link), Toggle(links, link, done))
    ensures done ==> forall l :: l in Toggle(links, link, done) <==> l in links || l == link
    ensures !done ==> forall l :: l in Toggle(links, link, done) <==> l in links && l != link
  {
    var p := (x: string) => x != link;
    var t := Toggle(links, link, done);
    FilterMembers(links, p);
    if done {
      if link !in links {
        FilterAppend(links, [link], p);
        assert Filter([link], p) == [];
      }
    } else {
      FilterNoDup(links, p);
      FilterMembers(t, p);
      FilterKeepsAll(t, p);
    }
    // the links other than `link` are what the toggled set keeps of them
    assert Filter(t, p) == Filter(links, p);
    FilterIsSubsequence(t, p);
  }

  /** Reading back after `setCompleted(link, done)` gives the toggled set. */
  lemma ReadAfterUpdate(items: map<string, string>, link: string, done: bool,
                        parse: string -> Option<seq<string>>, stringify: seq<string> -> string)
    requires RoundTrips(parse, stringify)
    ensures ReadCompleted(Updated(items, link, done, parse, stringify), parse) ==
      Toggle(ReadCompleted(items, parse), link, done)
  {
    var before := ReadCompleted(items, parse);
    var t := Toggle(before, link, done);
    ToggleMeaning(before, link, done);
    assert parse(stringify(t)) == Some(t) && stringify(t) != "";
    DedupOfNoDup(t);
  }

  /** The links of a set, as a mathematical set. */
  function Elements(links: LinkSet): set<string> {
    set l | l in links
  }

  /** After `setCompleted(link, true)` the set is the old one plus `link`;
      after `setCompleted(link, false)` the old one minus `link`. */
  lemma SetCompletedMeaning(items: map<string, string>, link: string, done: bool,
                            parse: string -> Option<seq<string>>, stringify: seq<string> -> string)
    requires RoundTrips(parse, stringify)
    ensures var before := Elements(ReadCompleted(items, parse));
      var after := Elements(ReadCompleted(Updated(items, link, done, parse, stringify), parse));
      after == if done then before + {link} else before - {link}
  {
    var before := ReadCompleted(items, parse);
    var after := ReadCompleted(Updated(items, link, done, parse, stringify), parse);
    ReadAfterUpdate(items, link, done, parse, stringify);
    var want := if done then Elements(before) + {link} else Elements(before) - {link};
    forall l ensures l in Elements(after) <==> l in want {
      assert l in Elements(after) <==> l in after;
      assert l in Elements(before) <==> l in before;
    }
  }

  /** Setting the same state twice is the same as setting it once. */
  lemma SetCompletedIdempotent(items: map<string, string>, link: string, done: bool,
                               parse: string -> Option<seq<string>>, stringify: seq<string> -> string)
    requires RoundTrips(parse, stringify)
    ensures var once := Updated(items, link, done, parse, stringify);
      Updated(once, link, done, parse, stringify) == once
  {
    var before := ReadCompleted(items, parse);
    var t := Toggle(before, link, done);
    ReadAfterUpdate(items, link, done, parse, stringify);
    ToggleMeaning(before, link, done);
    var p := (x: string) => x != link;
    if done {
      assert link in t;
    } else {
      FilterMembers(before, p);
      FilterKeepsAll(t, p);
    }
  }

  /** `localStorage`: text stored under string keys. */
  class Storage {
    var items: map<string, string>

    constructor (items0: map<string, string>)
      ensures items == items0
    {
      items := items0;
    }

    /** `getCompletedSet()`. */
    function Completed(parse: string -> Option<seq<string>>): (r: LinkSet)
      reads this
      ensures NoDup(r)
    {
      ReadCompleted(items, parse)
    }

    /** `setCompleted(link, done)`: reads the set, adds or deletes `link`,
        and writes the set back as JSON. */
    method SetCompleted(link: string, done: bool,
                        parse: string -> Option<seq<string>>, stringify: seq<string> -> string)
      modifies this
      ensures items == Updated(old(items), link, done, parse, stringify)
      ensures RoundTrips(parse, stringify) ==> Completed(parse) == Toggle(old(Completed(parse)), link, done)
    {
      var links := Completed(parse);
      if done {
        if link !in links {
          links := links + [link];
        }
      } else {
        links := Filter(links, x => x != link);
      }
      items := items[CompletedKey := stringify(links)];
      if RoundTrips(parse, stringify) {
        ReadAfterUpdate(old(items), link, done, parse, stringify);
      }
    }
  }
}
