/** str.split, str.join and str.strip with one separator character. */
module Text {
  function Split(sep: char, s: string): (parts: seq<string>)
    ensures |parts| >= 1
  {
    if s == "" then [""]
    else
      var rest := Split(sep, s[1..]);
      if s[0] == sep then [""] + rest else [[s[0]] + rest[0]] + rest[1..]
  }

  function Join(sep: char, parts: seq<string>): string
    requires parts != []
  {
    if |parts| == 1 then parts[0] else parts[0] + [sep] + Join(sep, parts[1..])
  }

  lemma {:induction false} SplitAtFirst(sep: char, field: string, rest: string)
    requires sep !in field
    ensures Split(sep, field + [sep] + rest) == [field] + Split(sep, rest)
  {
    var s := field + [sep] + rest;
    if field == "" {
      assert s[1..] == rest;
    } else {
      assert s[1..] == field[1..] + [sep] + rest;
      SplitAtFirst(sep, field[1..], rest);
      assert [field[0]] + field[1..] == field;
    }
  }

  lemma {:induction false} SplitNoSeparator(sep: char, field: string)
    requires sep !in field
    ensures Split(sep, field) == [field]
  {
    if field != "" {
      SplitNoSeparator(sep, field[1..]);
      assert [field[0]] + field[1..] == field;
    }
  }

  lemma {:induction false} SplitJoin(sep: char, parts: seq<string>)
    requires parts != [] && forall p | p in parts :: sep !in p
    ensures Split(sep, Join(sep, parts)) == parts
  {
    if |parts| == 1 {
      SplitNoSeparator(sep, parts[0]);
    } else {
      SplitJoin(sep, parts[1..]);
      SplitAtFirst(sep, parts[0], Join(sep, parts[1..]));
    }
  }

  lemma {:induction false} JoinSplit(sep: char, s: string)
    ensures Join(sep, Split(sep, s)) == s
  {
    if s != "" {
      JoinSplit(sep, s[1..]);
      var rest := Split(sep, s[1..]);
      if s[0] == sep {
        assert ([""] + rest)[1..] == rest;
      } else if |rest| > 1 {
        assert ([[s[0]] + rest[0]] + rest[1..])[1..] == rest[1..];
        assert [s[0]] + rest[0] + [sep] + Join(sep, rest[1..]) == [s[0]] + Join(sep, rest);
      }
    }
  }

  lemma {:induction false} SplitPartsHaveNoSeparator(sep: char, s: string)
    ensures forall p | p in Split(sep, s) :: sep !in p
  {
    if s != "" {
      SplitPartsHaveNoSeparator(sep, s[1..]);
    }
  }

  // str.strip

  function StripLeft(drop: char -> bool, s: string): string {
    if s != "" && drop(s[0]) then StripLeft(drop, s[1..]) else s
  }

  function StripRight(drop: char -> bool, s: string): string {
    if s != "" && drop(s[|s| - 1]) then StripRight(drop, s[..|s| - 1]) else s
  }

  function Strip(drop: char -> bool, s: string): string {
    StripRight(drop, StripLeft(drop, s))
  }

  ghost predicate AllOf(drop: char -> bool, s: string) {
    forall i | 0 <= i < |s| :: drop(s[i])
  }

  // Neither empty, nor beginning or ending with a character to drop.
  predicate Trimmed(drop: char -> bool, s: string) {
    s != "" && !drop(s[0]) && !drop(s[|s| - 1])
  }

  lemma {:induction false} StripLeftDrops(drop: char -> bool, left: string, rest: string)
    requires AllOf(drop, left) && rest != "" && !drop(rest[0])
    ensures StripLeft(drop, left + rest) == rest
  {
    if left == "" {
      assert left + rest == rest;
    } else {
      assert (left + rest)[1..] == left[1..] + rest;
      StripLeftDrops(drop, left[1..], rest);
    }
  }

  lemma {:induction false} StripRightDrops(drop: char -> bool, rest: string, right: string)
    requires AllOf(drop, right) && rest != "" && !drop(rest[|rest| - 1])
    ensures StripRight(drop, rest + right) == rest
  {
    if right == "" {
      assert rest + right == rest;
    } else {
      var n := |right| - 1;
      assert (rest + right)[..|rest + right| - 1] == rest + right[..n];
      StripRightDrops(drop, rest, right[..n]);
    }
  }

  // Whatever droppable text surrounds a trimmed one, stripping takes exactly that away.
  lemma StripFindsCore(drop: char -> bool, left: string, core: string, right: string)
    requires AllOf(drop, left) && AllOf(drop, right) && Trimmed(drop, core)
    ensures Strip(drop, left + core + right) == core
  {
    assert left + core + right == left + (core + right);
    StripLeftDrops(drop, left, core + right);
    StripRightDrops(drop, core, right);
  }

  lemma {:induction false} StripLeftCuts(drop: char -> bool, s: string) returns (left: string)
    ensures AllOf(drop, left) && s == left + StripLeft(drop, s)
    ensures StripLeft(drop, s) != "" ==> !drop(StripLeft(drop, s)[0])
  {
    left := "";
    if s != "" && drop(s[0]) {
      var more := StripLeftCuts(drop, s[1..]);
      left := [s[0]] + more;
    }
  }

  lemma {:induction false} StripRightCuts(drop: char -> bool, s: string) returns (right: string)
    ensures AllOf(drop, right) && s == StripRight(drop, s) + right
    ensures StripRight(drop, s) != "" ==> !drop(StripRight(drop, s)[|StripRight(drop, s)| - 1])
  {
    right := "";
    if s != "" && drop(s[|s| - 1]) {
      var more := StripRightCuts(drop, s[..|s| - 1]);
      right := more + [s[|s| - 1]];
      assert s == s[..|s| - 1] + [s[|s| - 1]];
    }
  }

  // And what it leaves, unless it is empty, is trimmed.
  lemma StripLeavesCore(drop: char -> bool, s: string) returns (left: string, right: string)
    requires Strip(drop, s) != ""
    ensures AllOf(drop, left) && AllOf(drop, right) && s == left + Strip(drop, s) + right
    ensures Trimmed(drop, Strip(drop, s))
  {
    left := StripLeftCuts(drop, s);
    right := StripRightCuts(drop, StripLeft(drop, s));
    assert Strip(drop, s)[0] == StripLeft(drop, s)[0];
  }
}

/** The dispatcher's path matcher, for the Gateway's one resource route (common/http_utils.py). */
module Routing {
  import opened Options
  import opened Text

  predicate IsSlash(c: char) { c == '/' }

  // The parameter that "/access/{resource}" takes from a path; None when the route does not match.
  function ResourceOf(path: string): Option<string> {
    var parts := Split('/', Strip(IsSlash, path));
    if |parts| == 2 && parts[0] == "access" then Some(parts[1]) else None
  }

  function PathOf(resource: string): string {
    "/access/" + resource
  }

  // The path is the route with this name filled in, with any slashes around it.
  ghost predicate Names(path: string, resource: string) {
    && resource != "" && '/' !in resource
    && exists left, right :: AllOf(IsSlash, left) && AllOf(IsSlash, right) && path == left + ("access/" + resource) + right
  }

  lemma SplitRoute(resource: string)
    requires '/' !in resource
    ensures Split('/', "access/" + resource) == ["access", resource]
  {
    var parts := ["access", resource];
    assert Join('/', parts) == "access/" + resource by {
      assert Join('/', parts[1..]) == resource;
      assert "access" + ['/'] + resource == "access/" + resource;
    }
    SplitJoin('/', parts);
  }

  lemma NamedResourceIsFound(path: string, resource: string)
    requires Names(path, resource)
    ensures ResourceOf(path) == Some(resource)
  {
    var left, right :| AllOf(IsSlash, left) && AllOf(IsSlash, right) && path == left + ("access/" + resource) + right;
    StripFindsCore(IsSlash, left, "access/" + resource, right);
    SplitRoute(resource);
  }

  // The matcher finds a resource exactly in the paths that name it.
  lemma RouteMatchesIff(path: string, resource: string)
    ensures ResourceOf(path) == Some(resource) <==> Names(path, resource)
  {
    if ResourceOf(path) == Some(resource) {
      var core := Strip(IsSlash, path);
      JoinSplit('/', core);
      SplitPartsHaveNoSeparator('/', core);
      var parts := Split('/', core);
      assert parts == ["access", resource] && '/' !in parts[1];
      assert Join('/', parts[1..]) == resource;
      assert core == "access/" + resource;
      var left, right := StripLeavesCore(IsSlash, path);
    }
    if Names(path, resource) {
      NamedResourceIsFound(path, resource);
    }
  }

  // A resource name without slashes is found again in its path.
  lemma ResourceIsFound(resource: string)
    requires resource != "" && '/' !in resource
    ensures ResourceOf(PathOf(resource)) == Some(resource)
  {
    assert PathOf(resource) == "/" + ("access/" + resource) + "";
    assert AllOf(IsSlash, "/") && AllOf(IsSlash, "");
    NamedResourceIsFound(PathOf(resource), resource);
  }
}
