/**
 * The BeginsWith filter of the flat listing: `namePrefixes.split(",")`
 * with Java's rules, and the starts-with test the store applies to names.
 */
module NamePrefixes {
  import opened Wrappers

  /** Every field between separators, empty fields included. */
  function SplitAt(s: string, sep: char): (parts: seq<string>)
    ensures |parts| >= 1
    ensures forall i :: 0 <= i < |parts| ==> sep !in parts[i]
  {
    if s == [] then [[]]
    else
      var rest := SplitAt(s[1..], sep);
      if s[0] == sep then [[]] + rest else [[s[0]] + rest[0]] + rest[1..]
  }

  /** The fields put back together, one separator between neighbours. */
  function Join(parts: seq<string>, sep: char): string
  {
    if |parts| == 0 then []
    else if |parts| == 1 then parts[0]
    else parts[0] + [sep] + Join(parts[1..], sep)
  }

  /** Removes the empty fields at the end, as String.split with limit 0 does. */
  function DropTrailingEmpty(parts: seq<string>): (r: seq<string>)
    ensures r <= parts
    ensures r == [] || r[|r| - 1] != []
    ensures forall i :: |r| <= i < |parts| ==> parts[i] == []
  {
    if parts != [] && parts[|parts| - 1] == [] then DropTrailingEmpty(parts[..|parts| - 1]) else parts
  }

  /** String.split on a one-character separator: the whole string when it holds no separator. */
  function JavaSplit(s: string, sep: char): seq<string>
  {
    if sep !in s then [s] else DropTrailingEmpty(SplitAt(s, sep))
  }

  /** The BeginsWith values sent with the describe request; none when namePrefixes is empty or null. */
  function PrefixFilter(namePrefixes: string): Option<seq<string>>
  {
    if namePrefixes == [] then None else Some(JavaSplit(namePrefixes, ','))
  }

  /** The store's BeginsWith test: no filter admits every name, otherwise some value must be a prefix. */
  predicate Matches(filter: Option<seq<string>>, name: string)
  {
    match filter
    case None => true
    case Some(prefixes) => exists i :: 0 <= i < |prefixes| && prefixes[i] <= name
  }

  /** Splitting a string that starts with a separator-free run: the run heads the first field. */
  lemma {:induction false} SplitCons(a: string, t: string, sep: char)
    requires sep !in a
    ensures SplitAt(a + t, sep) == [a + SplitAt(t, sep)[0]] + SplitAt(t, sep)[1..]
  {
    if a == [] {
      var fields := SplitAt(t, sep);
      assert a + t == t;
      assert a + fields[0] == fields[0];
      assert fields == [fields[0]] + fields[1..];
    } else {
      assert (a + t)[1..] == a[1..] + t;
      SplitCons(a[1..], t, sep);
      assert [a[0]] + (a[1..] + SplitAt(t, sep)[0]) == a + SplitAt(t, sep)[0];
    }
  }

  /** Joining the fields of a split gives back the string. */
  lemma {:induction false} JoinSplit(s: string, sep: char)
    ensures Join(SplitAt(s, sep), sep) == s
  {
    if s != [] {
      JoinSplit(s[1..], sep);
      var rest := SplitAt(s[1..], sep);
      if s[0] == sep {
        assert ([[]] + rest)[1..] == rest;
        assert Join([[]] + rest, sep) == [sep] + Join(rest, sep);
      } else {
        JoinGlue(s[0], rest, sep);
      }
      assert s == [s[0]] + s[1..];
    }
  }

  /** Gluing a character to the front of the first field glues it to the front of the joined string. */
  lemma JoinGlue(c: char, rest: seq<string>, sep: char)
    requires |rest| >= 1
    ensures Join([[c] + rest[0]] + rest[1..], sep) == [c] + Join(rest, sep)
  {
    var parts := [[c] + rest[0]] + rest[1..];
    if |rest| > 1 {
      assert parts[1..] == rest[1..];
    }
  }

  /** Splitting a join of separator-free fields gives back the fields. */
  lemma {:induction false} SplitJoin(parts: seq<string>, sep: char)
    requires |parts| >= 1
    requires forall i :: 0 <= i < |parts| ==> sep !in parts[i]
    ensures SplitAt(Join(parts, sep), sep) == parts
  {
    if |parts| == 1 {
      SplitCons(parts[0], [], sep);
      assert parts[0] + [] == parts[0];
    } else {
      var tail := Join(parts[1..], sep);
      SplitJoin(parts[1..], sep);
      assert Join(parts, sep) == parts[0] + ([sep] + tail);
      SplitCons(parts[0], [sep] + tail, sep);
      assert ([sep] + tail)[1..] == tail;
      assert SplitAt([sep] + tail, sep) == [[]] + parts[1..];
      assert parts[0] + [] == parts[0];
      assert parts == [parts[0]] + parts[1..];
    }
  }

  /** Joining with one more field appends a separator and that field. */
  lemma {:induction false} JoinSnoc(parts: seq<string>, p: string, sep: char)
    requires |parts| >= 1
    ensures Join(parts + [p], sep) == Join(parts, sep) + [sep] + p
  {
    if |parts| > 1 {
      assert (parts + [p])[1..] == parts[1..] + [p];
      JoinSnoc(parts[1..], p, sep);
    }
  }

  /** A trailing comma adds no prefix (it would otherwise admit every name). */
  lemma TrailingSeparatorIgnored(s: string, sep: char)
    requires s != []
    ensures JavaSplit(s + [sep], sep) == JavaSplit(s, sep)
  {
    var parts := SplitAt(s, sep);
    JoinSplit(s, sep);
    JoinSnoc(parts, [], sep);
    assert Join(parts + [[]], sep) == s + [sep];
    assert forall i :: 0 <= i < |parts + [[]]| ==> sep !in (parts + [[]])[i];
    SplitJoin(parts + [[]], sep);
    assert (parts + [[]])[..|parts|] == parts;
    if sep !in s {
      SplitJoin([s], sep);
      assert Join([s], sep) == s;
    }
  }

  /** "prefix1,prefix2_name2" is the join of its two prefixes. */
  lemma MultiPrefixJoin()
    ensures Join(["prefix1", "prefix2_name2"], ',') == "prefix1,prefix2_name2"
  {
    var parts := ["prefix1", "prefix2_name2"];
    assert Join(parts, ',') == parts[0] + [','] + parts[1];
  }

  /** Splitting "prefix1,prefix2_name2" at its comma gives its two prefixes, neither of them empty. */
  lemma MultiPrefixFields()
    ensures ',' in "prefix1,prefix2_name2"
    ensures SplitAt("prefix1,prefix2_name2", ',') == ["prefix1", "prefix2_name2"]
    ensures DropTrailingEmpty(["prefix1", "prefix2_name2"]) == ["prefix1", "prefix2_name2"]
  {
    assert "prefix1,prefix2_name2"[7] == ',';
    assert ',' !in "prefix1" && ',' !in "prefix2_name2";
    MultiPrefixJoin();
    SplitJoin(["prefix1", "prefix2_name2"], ',');
  }

  /** The filter sent for "prefix1,prefix2_name2" holds both prefixes, in order. */
  lemma MultiPrefixFilter()
    ensures PrefixFilter("prefix1,prefix2_name2") == Some(["prefix1", "prefix2_name2"])
  {
    MultiPrefixFields();
  }

  /** That filter admits names under either prefix, and no other. */
  lemma MultiPrefixMatches()
    ensures Matches(Some(["prefix1", "prefix2_name2"]), "prefix1_name1")
    ensures Matches(Some(["prefix1", "prefix2_name2"]), "prefix2_name2")
    ensures !Matches(Some(["prefix1", "prefix2_name2"]), "other_name")
  {
    var prefixes := ["prefix1", "prefix2_name2"];
    assert prefixes[0] <= "prefix1_name1";
    assert prefixes[1] <= "prefix2_name2";
    assert "other_name"[0] != 'p';
  }
}
