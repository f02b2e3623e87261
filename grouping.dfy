/**
 * The content aggregator: bubbles grouped by author, authors in the order
 * they first appear. `group_bubbles_by_user` (identical in lib.py, src.py
 * and bubbl.ai.py) joins each author's contents with CRLF; the `/query`
 * endpoint of main.py keeps each author's notes as a list.
 */
module Grouping {
  import opened Text
  import opened Dicts
  import opened Store

  function Authors(bs: seq<Bubble>): (r: seq<string>)
    ensures |r| == |bs| && forall i :: 0 <= i < |bs| ==> r[i] == bs[i].user
  {
    seq(|bs|, i requires 0 <= i < |bs| => bs[i].user)
  }

  /** The distinct entries of `s`, each where it first appears. */
  function FirstSeen(s: seq<string>): seq<string>
    decreases |s|
  {
    if s == [] then []
    else
      var seen := FirstSeen(s[..|s| - 1]);
      if s[|s| - 1] in seen then seen else seen + [s[|s| - 1]]
  }

  /** Position of the first occurrence of `x` in `s`. */
  function FirstIndex(s: seq<string>, x: string): (k: nat)
    requires x in s
    ensures k < |s| && s[k] == x && forall j :: 0 <= j < k ==> s[j] != x
    decreases |s|
  {
    if x in s[..|s| - 1] then FirstIndex(s[..|s| - 1], x) else |s| - 1
  }

  lemma {:induction false} FirstSeenMembers(s: seq<string>)
    ensures forall x :: x in FirstSeen(s) <==> x in s
    decreases |s|
  {
    if s != [] {
      FirstSeenMembers(s[..|s| - 1]);
      assert s == s[..|s| - 1] + [s[|s| - 1]];
    }
  }

  lemma {:induction false} FirstSeenDistinct(s: seq<string>)
    ensures Distinct(FirstSeen(s))
    decreases |s|
  {
    if s != [] {
      FirstSeenDistinct(s[..|s| - 1]);
    }
  }

  /**
   * First-seen order: of two distinct entries, the one that occurs first in
   * `s` comes first.
   */
  lemma FirstIndexSnoc(s: seq<string>, last: string, x: string)
    requires x in s
    ensures FirstIndex(s + [last], x) == FirstIndex(s, x)
  {
    assert (s + [last])[..|s|] == s;
  }

  /** The order `FirstSeenOrder` states, as a predicate of the two sequences. */
  ghost predicate InFirstSeenOrder(r: seq<string>, s: seq<string>)
  {
    forall i, j :: 0 <= i < j < |r| ==> r[i] in s && r[j] in s && FirstIndex(s, r[i]) < FirstIndex(s, r[j])
  }

  /**
   * First-seen order: of two distinct entries, the one that occurs first in
   * `s` comes first.
   */
  lemma {:induction false} FirstSeenOrder(s: seq<string>)
    ensures InFirstSeenOrder(FirstSeen(s), s)
    decreases |s|
  {
    if s != [] {
      var init, last := s[..|s| - 1], s[|s| - 1];
      assert s == init + [last];
      var seen := FirstSeen(init);
      FirstSeenOrder(init);
      FirstSeenMembers(init);
      var r := FirstSeen(s);
      forall i, j | 0 <= i < j < |r|
        ensures r[i] in s && r[j] in s && FirstIndex(s, r[i]) < FirstIndex(s, r[j])
      {
        assert r[i] == seen[i];
        FirstIndexSnoc(init, last, r[i]);
        if j < |seen| {
          assert r[j] == seen[j];
          FirstIndexSnoc(init, last, r[j]);
        } else {
          assert r[j] == last && last !in init;
        }
      }
    }
  }

  lemma FirstSeenSnoc(s: seq<string>, x: string)
    ensures FirstSeen(s + [x]) == if x in FirstSeen(s) then FirstSeen(s) else FirstSeen(s) + [x]
  {
    assert (s + [x])[..|s|] == s;
  }

  /** The contents of `u`'s bubbles, in input order. */
  function TextsBy(bs: seq<Bubble>, u: string): seq<string>
    decreases |bs|
  {
    if bs == [] then []
    else TextsBy(bs[..|bs| - 1], u) + if bs[|bs| - 1].user == u then [bs[|bs| - 1].content] else []
  }

  lemma {:induction false} TextsByEmptyIff(bs: seq<Bubble>, u: string)
    ensures TextsBy(bs, u) == [] <==> u !in Authors(bs)
    decreases |bs|
  {
    if bs != [] {
      TextsByEmptyIff(bs[..|bs| - 1], u);
      assert Authors(bs) == Authors(bs[..|bs| - 1]) + [bs[|bs| - 1].user];
    }
  }

  lemma TextsBySnoc(bs: seq<Bubble>, b: Bubble, u: string)
    ensures TextsBy(bs + [b], u) == TextsBy(bs, u) + if b.user == u then [b.content] else []
  {
    assert (bs + [b])[..|bs|] == bs;
  }

  /** `groups` is the grouping of `bs`: authors in first-seen order, each with its joined contents. */
  ghost predicate Grouped(groups: Dict<string>, bs: seq<Bubble>)
  {
    Valid(groups) && groups.keys == FirstSeen(Authors(bs)) &&
    forall u :: u in groups.values ==> groups.values[u] == Join(CRLF, TextsBy(bs, u))
  }

  lemma AuthorsSnoc(bs: seq<Bubble>, b: Bubble)
    ensures Authors(bs + [b]) == Authors(bs) + [b.user]
  {
  }

  /** The keys after one more bubble: its author is appended when not yet seen. */
  lemma GroupedKeysStep(keys: seq<string>, bs: seq<Bubble>, b: Bubble)
    requires keys == FirstSeen(Authors(bs))
    ensures FirstSeen(Authors(bs + [b])) == if b.user in Authors(bs) then keys else keys + [b.user]
  {
    AuthorsSnoc(bs, b);
    FirstSeenSnoc(Authors(bs), b.user);
    FirstSeenMembers(Authors(bs));
  }

  /** One more bubble by a new author: the author is appended, with the content alone. */
  lemma GroupedNewAuthor(groups: Dict<string>, bs: seq<Bubble>, b: Bubble)
    requires Grouped(groups, bs) && b.user !in groups.values
    ensures Grouped(Put(groups, b.user, b.content), bs + [b])
  {
    var u := b.user;
    var next := Put(groups, u, b.content);
    FirstSeenMembers(Authors(bs));
    GroupedKeysStep(groups.keys, bs, b);
    TextsByEmptyIff(bs, u);
    forall v | v in next.values
      ensures next.values[v] == Join(CRLF, TextsBy(bs + [b], v))
    {
      TextsBySnoc(bs, b, v);
      if v == u {
        assert TextsBy(bs + [b], v) == [b.content];
      } else {
        assert v in groups.values;
        assert TextsBy(bs + [b], v) == TextsBy(bs, v);
      }
    }
  }

  /** One more bubble by a known author: CRLF and the content are appended to its text. */
  lemma GroupedKnownAuthor(groups: Dict<string>, bs: seq<Bubble>, b: Bubble)
    requires Grouped(groups, bs) && b.user in groups.values
    ensures Grouped(Put(groups, b.user, groups.values[b.user] + CRLF + b.content), bs + [b])
  {
    var u := b.user;
    var next := Put(groups, u, groups.values[u] + CRLF + b.content);
    FirstSeenMembers(Authors(bs));
    GroupedKeysStep(groups.keys, bs, b);
    TextsByEmptyIff(bs, u);
    forall v | v in next.values
      ensures next.values[v] == Join(CRLF, TextsBy(bs + [b], v))
    {
      TextsBySnoc(bs, b, v);
      if v == u {
        assert TextsBy(bs + [b], v) == TextsBy(bs, u) + [b.content];
        JoinSnoc(CRLF, TextsBy(bs, u), b.content);
      } else {
        assert TextsBy(bs + [b], v) == TextsBy(bs, v);
      }
    }
  }

  /**
   * `group_bubbles_by_user`: one key per distinct author in first-seen
   * order, each holding that author's contents in input order joined by
   * CRLF; an author with one bubble keeps its content unchanged.
   */
  method GroupByUser(bubbles: seq<Bubble>) returns (groups: Dict<string>)
    ensures Valid(groups)
    ensures groups.keys == FirstSeen(Authors(bubbles))
    ensures forall u :: u in groups.values ==> groups.values[u] == Join(CRLF, TextsBy(bubbles, u))
    ensures forall u :: u in groups.values && |TextsBy(bubbles, u)| == 1 ==> groups.values[u] == TextsBy(bubbles, u)[0]
  {
    groups := Empty();
    for i := 0 to |bubbles|
      invariant Grouped(groups, bubbles[..i])
    {
      var b := bubbles[i];
      assert bubbles[..i + 1] == bubbles[..i] + [b];
      if b.user !in groups.values {
        GroupedNewAuthor(groups, bubbles[..i], b);
        groups := Put(groups, b.user, b.content);
      } else {
        GroupedKnownAuthor(groups, bubbles[..i], b);
        groups := Put(groups, b.user, groups.values[b.user] + CRLF + b.content);
      }
    }
    assert bubbles[..|bubbles|] == bubbles;
  }

  /** A row of the `Note` collection as the `/query` endpoint reads it. */
  datatype Note = Note(userId: string, content: string)

  function NoteAuthors(ns: seq<Note>): (r: seq<string>)
    ensures |r| == |ns| && forall i :: 0 <= i < |ns| ==> r[i] == ns[i].userId
  {
    seq(|ns|, i requires 0 <= i < |ns| => ns[i].userId)
  }

  /** The contents of `u`'s notes, in result order. */
  function NotesBy(ns: seq<Note>, u: string): seq<string>
    decreases |ns|
  {
    if ns == [] then []
    else NotesBy(ns[..|ns| - 1], u) + if ns[|ns| - 1].userId == u then [ns[|ns| - 1].content] else []
  }

  /** `grouped` is the list-valued grouping of `ns`. */
  ghost predicate NotesGrouped(grouped: Dict<seq<string>>, ns: seq<Note>)
  {
    Valid(grouped) && grouped.keys == FirstSeen(NoteAuthors(ns)) &&
    forall u :: u in grouped.values ==> grouped.values[u] == NotesBy(ns, u)
  }

  lemma NotesBySnoc(ns: seq<Note>, n: Note, u: string)
    ensures NotesBy(ns + [n], u) == NotesBy(ns, u) + if n.userId == u then [n.content] else []
  {
    assert (ns + [n])[..|ns|] == ns;
  }

  lemma {:induction false} NotesByEmptyIff(ns: seq<Note>, u: string)
    ensures NotesBy(ns, u) == [] <==> u !in NoteAuthors(ns)
    decreases |ns|
  {
    if ns != [] {
      NotesByEmptyIff(ns[..|ns| - 1], u);
      assert NoteAuthors(ns) == NoteAuthors(ns[..|ns| - 1]) + [ns[|ns| - 1].userId];
    }
  }

  /** One more note: its user gets a list if it had none, and the content is appended to that list. */
  lemma NotesGroupedStep(grouped: Dict<seq<string>>, ns: seq<Note>, n: Note)
    requires NotesGrouped(grouped, ns)
    ensures var g := if n.userId in grouped.values then grouped else Put(grouped, n.userId, []);
            NotesGrouped(Put(g, n.userId, g.values[n.userId] + [n.content]), ns + [n])
  {
    var u := n.userId;
    var g := if u in grouped.values then grouped else Put(grouped, u, []);
    var next := Put(g, u, g.values[u] + [n.content]);
    assert NoteAuthors(ns + [n]) == NoteAuthors(ns) + [u];
    FirstSeenSnoc(NoteAuthors(ns), u);
    FirstSeenMembers(NoteAuthors(ns));
    NotesByEmptyIff(ns, u);
    assert next.keys == FirstSeen(NoteAuthors(ns + [n]));
    assert g.values[u] == NotesBy(ns, u);
    forall v | v in next.values
      ensures next.values[v] == NotesBy(ns + [n], v)
    {
      NotesBySnoc(ns, n, v);
      if v == u {
        assert NotesBy(ns + [n], v) == NotesBy(ns, u) + [n.content];
      } else {
        assert v in grouped.values;
        assert NotesBy(ns + [n], v) == NotesBy(ns, v);
      }
    }
  }

  /**
   * `notes_by_user` of the `/query` endpoint: one key per distinct
   * `user_id` in first-seen order, each holding that user's contents as a
   * list in result order.
   */
  method NotesByUser(results: seq<Note>) returns (grouped: Dict<seq<string>>)
    ensures Valid(grouped)
    ensures grouped.keys == FirstSeen(NoteAuthors(results))
    ensures forall u :: u in grouped.values ==> grouped.values[u] == NotesBy(results, u)
  {
    grouped := Empty();
    for i := 0 to |results|
      invariant NotesGrouped(grouped, results[..i])
    {
      NotesGroupedStep(grouped, results[..i], results[i]);
      assert results[..i + 1] == results[..i] + [results[i]];
      var userId := results[i].userId;
      if userId !in grouped.values {
        grouped := Put(grouped, userId, []);
      }
      grouped := Put(grouped, userId, grouped.values[userId] + [results[i].content]);
    }
    assert results[..|results|] == results;
  }
}
