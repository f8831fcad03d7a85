/** The shared route table: the URL paths of the API, the shapes its request bodies must have,
    and `buildUrl`, which fills the `:name` placeholders of a path. */
module Routes {
  import opened Wrappers
  import opened Text

  // ---------------------------------------------------------------------------------------------
  // Paths

  const PostsListPath := "/api/posts"
  const PostsGetPath := "/api/posts/:id"
  const CommentsListPath := "/api/posts/:postId/comments"
  const RatingsCreatePath := "/api/posts/:postId/rating"

  // ---------------------------------------------------------------------------------------------
  // String search and replacement, as JavaScript's `includes` and `replace` do them

  /** `pat` stands in `s` starting at index `i`. */
  predicate OccursAt(s: string, pat: string, i: int) {
    0 <= i && i + |pat| <= |s| && s[i..i + |pat|] == pat
  }

  /** `s.indexOf(pat, from)`: the first index from `from` on at which `pat` stands, if any. */
  function IndexOf(s: string, pat: string, from: nat): (r: Option<nat>)
    requires from <= |s|
    ensures r.Some? ==> from <= r.value && OccursAt(s, pat, r.value)
    ensures r.Some? ==> forall j :: from <= j < r.value ==> !OccursAt(s, pat, j)
    ensures r.None? ==> forall j :: from <= j ==> !OccursAt(s, pat, j)
    decreases |s| - from
  {
    if from + |pat| > |s| then None
    else if s[from..from + |pat|] == pat then Some(from)
    else if from == |s| then None
    else IndexOf(s, pat, from + 1)
  }

  /** An occurrence with none before it is the one `indexOf` finds. */
  lemma FirstIndex(s: string, pat: string, i: nat)
    requires OccursAt(s, pat, i)
    requires forall j :: 0 <= j < i ==> !OccursAt(s, pat, j)
    ensures IndexOf(s, pat, 0) == Some(i)
  {
    var found := IndexOf(s, pat, 0);
    assert found.Some?;
    assert found.value == i;
  }

  /** `s.includes(pat)`. */
  predicate Includes(s: string, pat: string)
    ensures Includes(s, pat) <==> exists i :: OccursAt(s, pat, i)
  {
    IndexOf(s, pat, 0).Some?
  }

  /** The text a string replacement pattern stands for once a match is found: `$$` is `$`, `$&`
      the matched text, `` $` `` the text before the match, `$'` the text after it; every other
      character, `$` included, stands for itself (a string pattern has no capture groups). */
  function Expand(replacement: string, matched: string, before: string, after: string): string
    decreases |replacement|
  {
    if replacement == [] then []
    else if replacement[0] == '$' && |replacement| >= 2 && replacement[1] in "$&`'" then
      var part := match replacement[1]
        case '$' => "$"
        case '&' => matched
        case '`' => before
        case _ => after;
      part + Expand(replacement[2..], matched, before, after)
    else [replacement[0]] + Expand(replacement[1..], matched, before, after)
  }

  predicate NoDollar(s: string) {
    forall i :: 0 <= i < |s| ==> s[i] != '$'
  }

  /** A replacement without `$` is inserted as it is. */
  lemma {:induction false} ExpandLiteral(replacement: string, matched: string, before: string, after: string)
    requires NoDollar(replacement)
    ensures Expand(replacement, matched, before, after) == replacement
    decreases |replacement|
  {
    if replacement != [] {
      assert replacement[0] != '$';
      ExpandLiteral(replacement[1..], matched, before, after);
      assert replacement == [replacement[0]] + replacement[1..];
    }
  }

  /** `s.replace(pat, replacement)` with a string pattern: only the first occurrence of `pat` is
      replaced; without one, `s` is returned as it is. */
  function ReplaceFirst(s: string, pat: string, replacement: string): string {
    match IndexOf(s, pat, 0)
    case None => s
    case Some(i) =>
      s[..i] + Expand(replacement, pat, s[..i], s[i + |pat|..]) + s[i + |pat|..]
  }

  // ---------------------------------------------------------------------------------------------
  // buildUrl

  /** A parameter value: a string, or an integral number. */
  datatype ParamValue = Str(s: string) | Num(n: int)

  /** `String(value)`. */
  function ValueText(v: ParamValue): string {
    match v
    case Str(s) => s
    case Num(n) => IntToText(n)
  }

  /** One iteration of the loop in `buildUrl`: when `:key` occurs in `url`, its first
      occurrence is replaced by the value's text; otherwise `url` is kept. */
  function Substitute(url: string, entry: (string, ParamValue)): string {
    var placeholder := ":" + entry.0;
    if Includes(url, placeholder) then ReplaceFirst(url, placeholder, ValueText(entry.1)) else url
  }

  /** The entries applied in order, each to the output of the one before. */
  function SubstituteAll(url: string, entries: seq<(string, ParamValue)>): string
    decreases |entries|
  {
    if entries == [] then url else SubstituteAll(Substitute(url, entries[0]), entries[1..])
  }

  /** `buildUrl(path, params)`: `params` is absent or the entries of the record in the order
      `Object.entries` lists them. */
  method BuildUrl(path: string, params: Option<seq<(string, ParamValue)>>) returns (url: string)
    ensures params.None? ==> url == path
    ensures params.Some? ==> url == SubstituteAll(path, params.value)
  {
    url := path;
    if params.Some? {
      var entries := params.value;
      var i := 0;
      while i < |entries|
        invariant 0 <= i <= |entries|
        invariant SubstituteAll(url, entries[i..]) == SubstituteAll(path, entries)
      {
        assert entries[i..] == [entries[i]] + entries[i + 1..];
        var (key, value) := entries[i];
        var placeholder := ":" + key;
        if Includes(url, placeholder) {
          url := ReplaceFirst(url, placeholder, ValueText(value));
        }
        i := i + 1;
      }
    }
  }

  /** Applying a list of entries in two parts is applying the first part, then the second to its
      output. */
  lemma {:induction false} SubstituteAllSplit(url: string, first: seq<(string, ParamValue)>, second: seq<(string, ParamValue)>)
    ensures SubstituteAll(url, first + second) == SubstituteAll(SubstituteAll(url, first), second)
    decreases |first|
  {
    if first == [] {
      assert first + second == second;
    } else {
      assert (first + second)[0] == first[0];
      assert (first + second)[1..] == first[1..] + second;
      SubstituteAllSplit(Substitute(url, first[0]), first[1..], second);
    }
  }

  /** Two entries: the second acts on the output of the first. */
  lemma SubstituteAllPair(url: string, first: (string, ParamValue), second: (string, ParamValue))
    ensures SubstituteAll(url, [first, second]) == Substitute(Substitute(url, first), second)
  {
    assert [first, second][1..] == [second];
    assert SubstituteAll(url, [first, second]) == SubstituteAll(Substitute(url, first), [second]);
    assert [second][1..] == [];
  }

  /** A key whose placeholder does not occur leaves the url unchanged. */
  lemma SubstituteAbsent(url: string, key: string, value: ParamValue)
    requires forall i :: !OccursAt(url, ":" + key, i)
    ensures Substitute(url, (key, value)) == url
  {
  }

  /** Where `indexOf` finds the pattern, `replace` splices the expanded replacement in. */
  lemma ReplaceFirstFound(s: string, pat: string, replacement: string, i: nat)
    requires IndexOf(s, pat, 0) == Some(i)
    ensures i + |pat| <= |s|
    ensures ReplaceFirst(s, pat, replacement) ==
            s[..i] + Expand(replacement, pat, s[..i], s[i + |pat|..]) + s[i + |pat|..]
  {
  }

  /** Where `indexOf` finds the placeholder, `buildUrl` splices the expanded value in. */
  lemma SubstituteFound(url: string, key: string, value: ParamValue, i: nat)
    requires IndexOf(url, ":" + key, 0) == Some(i)
    ensures i + |key| + 1 <= |url|
    ensures Substitute(url, (key, value)) ==
            url[..i] + Expand(ValueText(value), ":" + key, url[..i], url[i + |key| + 1..]) + url[i + |key| + 1..]
  {
    var placeholder := ":" + key;
    ReplaceFirstFound(url, placeholder, ValueText(value), i);
    assert |placeholder| == |key| + 1;
    assert url[i + |placeholder|..] == url[i + |key| + 1..];
  }

  /** A key whose placeholder first occurs at `i` has exactly that occurrence replaced by the
      value's text (when the text holds no `$`); the text after it, later occurrences included,
      is kept. */
  lemma SubstituteFirstOccurrence(url: string, key: string, value: ParamValue, i: nat)
    requires OccursAt(url, ":" + key, i)
    requires forall j :: 0 <= j < i ==> !OccursAt(url, ":" + key, j)
    requires NoDollar(ValueText(value))
    ensures Substitute(url, (key, value)) == url[..i] + ValueText(value) + url[i + |key| + 1..]
  {
    FirstIndex(url, ":" + key, i);
    SubstituteFound(url, key, value, i);
    ExpandLiteral(ValueText(value), ":" + key, url[..i], url[i + |key| + 1..]);
  }

  /** Numbers are inserted as their decimal text. */
  lemma NumberTextIsLiteral(n: int)
    ensures NoDollar(ValueText(Num(n)))
  {
    IntToTextHasNoDollar(n);
  }

  // ---------------------------------------------------------------------------------------------
  // Request bodies

  /** A JSON value as the request body parser delivers it. */
  datatype Json =
    | JNull
    | JBool(b: bool)
    | JNum(x: real)
    | JStr(s: string)
    | JArray(items: seq<Json>)
    | JObject(fields: map<string, Json>)

  /** Why a value was refused: missing, of the wrong type, or out of bounds. */
  datatype IssueKind = Required | InvalidType | TooSmall(minimum: int) | TooBig(maximum: int)

  /** The first problem found, and the field it is in (`""` for the body itself). */
  datatype Issue = Issue(field: string, kind: IssueKind)

  /** The input `ratings.create` accepts. */
  datatype RatingInput = RatingInput(rating: real, userSession: string)

  /** The input `posts.create` and `comments.create` accept: content alone (the post id of a
      comment comes from the path). */
  datatype ContentInput = ContentInput(content: string)

  const MinRating := 1
  const MaxRating := 5

  /** A field required to be a string. */
  function StringField(fields: map<string, Json>, name: string): Result<string, Issue> {
    if name !in fields then Err(Issue(name, Required))
    else if !fields[name].JStr? then Err(Issue(name, InvalidType))
    else Ok(fields[name].s)
  }

  /** Parses a rating body: `rating` a number from 1 to 5 (not necessarily whole) and
      `userSession` a string; other fields are dropped. Fields are checked in that order and the
      first issue is reported. */
  function ParseRatingInput(body: Json): (r: Result<RatingInput, Issue>)
    ensures r.Ok? <==>
              body.JObject? &&
              "rating" in body.fields && body.fields["rating"].JNum? &&
              MinRating as real <= body.fields["rating"].x <= MaxRating as real &&
              "userSession" in body.fields && body.fields["userSession"].JStr?
    ensures r.Ok? ==> r.value == RatingInput(body.fields["rating"].x, body.fields["userSession"].s)
    ensures r.Err? && body.JObject? && !("rating" in body.fields && body.fields["rating"].JNum? &&
              MinRating as real <= body.fields["rating"].x <= MaxRating as real) ==>
              r.error.field == "rating"
    ensures r.Err? && body.JObject? && "rating" in body.fields && body.fields["rating"].JNum? &&
              MinRating as real <= body.fields["rating"].x <= MaxRating as real ==>
              r.error.field == "userSession"
    ensures !body.JObject? ==> r == Err(Issue("", InvalidType))
  {
    match body
    case JObject(fields) =>
      if "rating" !in fields then Err(Issue("rating", Required))
      else if !fields["rating"].JNum? then Err(Issue("rating", InvalidType))
      else if fields["rating"].x < MinRating as real then Err(Issue("rating", TooSmall(MinRating)))
      else if fields["rating"].x > MaxRating as real then Err(Issue("rating", TooBig(MaxRating)))
      else
        (match StringField(fields, "userSession")
         case Err(issue) => Err(issue)
         case Ok(session) => Ok(RatingInput(fields["rating"].x, session)))
    case _ => Err(Issue("", InvalidType))
  }

  /** Parses a post or comment body: `content` must be a string, of any length; other fields are
      dropped. */
  function ParseContentInput(body: Json): (r: Result<ContentInput, Issue>)
    ensures r.Ok? <==> body.JObject? && "content" in body.fields && body.fields["content"].JStr?
    ensures r.Ok? ==> r.value.content == body.fields["content"].s
    ensures r.Err? && body.JObject? ==> r.error.field == "content"
  {
    match body
    case JObject(fields) =>
      (match StringField(fields, "content")
       case Err(issue) => Err(issue)
       case Ok(content) => Ok(ContentInput(content)))
    case _ => Err(Issue("", InvalidType))
  }

  /** The bounds check does not ask for a whole number: 2.5 stars passes. */
  lemma FractionalRatingAccepted()
    ensures ParseRatingInput(JObject(map["rating" := JNum(2.5), "userSession" := JStr("s")])) ==
            Ok(RatingInput(2.5, "s"))
  {
  }

  /** Fields other than `rating` and `userSession` have no effect on the outcome. */
  lemma RatingInputIgnoresOtherFields(fields: map<string, Json>, name: string, value: Json)
    requires name != "rating" && name != "userSession"
    ensures ParseRatingInput(JObject(fields[name := value])) == ParseRatingInput(JObject(fields))
  {
    var more := fields[name := value];
    assert "rating" in more <==> "rating" in fields;
    assert "userSession" in more <==> "userSession" in fields;
    if "rating" in fields {
      assert more["rating"] == fields["rating"];
    }
    if "userSession" in fields {
      assert more["userSession"] == fields["userSession"];
    }
  }

  /** Content of any length is accepted, the empty string and texts over 280 characters
      included. */
  lemma ContentHasNoLengthLimit(content: string)
    ensures ParseContentInput(JObject(map["content" := JStr(content)])) == Ok(ContentInput(content))
  {
  }

  // ---------------------------------------------------------------------------------------------
  // buildUrl on the application's paths and on the corner cases of its matching

  /** A placeholder preceded by no `:` is the first occurrence, and `replace` puts the expanded
      value in its place. */
  lemma SubstituteAfterPrefix(prefix: string, key: string, rest: string, value: ParamValue)
    requires ':' !in prefix
    ensures Substitute(prefix + ":" + key + rest, (key, value)) ==
            prefix + Expand(ValueText(value), ":" + key, prefix, rest) + rest
  {
    var url := prefix + ":" + key + rest;
    var placeholder := ":" + key;
    var i := |prefix|;
    assert url == prefix + placeholder + rest;
    assert url[i..i + |placeholder|] == placeholder;
    forall j | 0 <= j < i
      ensures !OccursAt(url, placeholder, j)
    {
      assert url[j] == prefix[j];
    }
    FirstIndex(url, placeholder, i);
    assert url[..i] == prefix;
    assert url[i + |placeholder|..] == rest;
  }

  /** The same, for a value whose text holds no `$`: the text goes in as it is. */
  lemma SubstituteLiteralAfterPrefix(prefix: string, key: string, rest: string, value: ParamValue)
    requires ':' !in prefix
    requires NoDollar(ValueText(value))
    ensures Substitute(prefix + ":" + key + rest, (key, value)) == prefix + ValueText(value) + rest
  {
    SubstituteAfterPrefix(prefix, key, rest, value);
    ExpandLiteral(ValueText(value), ":" + key, prefix, rest);
  }

  /** A one-entry list whose placeholder comes after a prefix without `:`. */
  lemma FillOnlyPlaceholderExpanded(prefix: string, key: string, rest: string, value: ParamValue)
    requires ':' !in prefix
    ensures SubstituteAll(prefix + ":" + key + rest, [(key, value)]) ==
            prefix + Expand(ValueText(value), ":" + key, prefix, rest) + rest
  {
    SubstituteAfterPrefix(prefix, key, rest, value);
  }

  /** A path with one placeholder, filled by the one matching entry. */
  lemma FillOnlyPlaceholder(prefix: string, key: string, rest: string, value: ParamValue)
    requires ':' !in prefix
    requires NoDollar(ValueText(value))
    ensures SubstituteAll(prefix + ":" + key + rest, [(key, value)]) == prefix + ValueText(value) + rest
  {
    SubstituteLiteralAfterPrefix(prefix, key, rest, value);
  }

  /** Each path with a placeholder is a prefix without `:`, the placeholder, and a rest. */
  lemma PathShapes()
    ensures PostsGetPath == "/api/posts/" + ":" + "id" + ""
    ensures CommentsListPath == "/api/posts/" + ":" + "postId" + "/comments"
    ensures RatingsCreatePath == "/api/posts/" + ":" + "postId" + "/rating"
    ensures ':' !in "/api/posts/"
  {
  }

  /** A path without `:` has no placeholder, so every entry leaves it as it is. */
  lemma {:induction false} PlaceholderFreePathUnchanged(path: string, entries: seq<(string, ParamValue)>)
    requires ':' !in path
    ensures SubstituteAll(path, entries) == path
    decreases |entries|
  {
    if entries != [] {
      var placeholder := ":" + entries[0].0;
      forall i ensures !OccursAt(path, placeholder, i) {
        if 0 <= i && i + |placeholder| <= |path| {
          assert path[i..i + |placeholder|][0] == path[i] && path[i] in path;
        }
      }
      SubstituteAbsent(path, entries[0].0, entries[0].1);
      PlaceholderFreePathUnchanged(path, entries[1..]);
    }
  }

  /** `buildUrl(api.posts.list.path, params)` is the list path itself, whatever the params. */
  lemma ListPathUnchanged(entries: seq<(string, ParamValue)>)
    ensures SubstituteAll(PostsListPath, entries) == PostsListPath
  {
    PlaceholderFreePathUnchanged(PostsListPath, entries);
  }

  /** `buildUrl("/api/posts/:id", { id })` is `/api/posts/` followed by the id's digits. */
  lemma PostUrl(id: int)
    ensures SubstituteAll(PostsGetPath, [("id", Num(id))]) == "/api/posts/" + IntToText(id)
  {
    PathShapes();
    NumberTextIsLiteral(id);
    FillOnlyPlaceholder("/api/posts/", "id", "", Num(id));
    assert "/api/posts/" + IntToText(id) + "" == "/api/posts/" + IntToText(id);
  }

  /** `buildUrl("/api/posts/:postId/comments", { postId })` is `/api/posts/`, the post id's
      digits and `/comments`. */
  lemma CommentsUrl(postId: int)
    ensures SubstituteAll(CommentsListPath, [("postId", Num(postId))]) ==
            "/api/posts/" + IntToText(postId) + "/comments"
  {
    PathShapes();
    NumberTextIsLiteral(postId);
    FillOnlyPlaceholder("/api/posts/", "postId", "/comments", Num(postId));
  }

  /** Matching is by substring: a key that is only the start of a placeholder's name (`post`
      in `:postId`) still matches, and the rest of the name is left behind. */
  lemma PrefixKeyMatches(prefix: string, key: string, tail: string, rest: string, value: ParamValue)
    requires ':' !in prefix
    requires NoDollar(ValueText(value))
    ensures SubstituteAll(prefix + ":" + key + tail + rest, [(key, value)]) ==
            prefix + ValueText(value) + tail + rest
  {
    FillOnlyPlaceholder(prefix, key, tail + rest, value);
    assert prefix + ":" + key + tail + rest == prefix + ":" + key + (tail + rest);
    assert prefix + ValueText(value) + (tail + rest) == prefix + ValueText(value) + tail + rest;
  }

  /** Only the first of two equal placeholders is filled. */
  lemma OnlyFirstOccurrenceReplaced(n: int)
    ensures SubstituteAll("/:a/:a", [("a", Num(n))]) == "/" + IntToText(n) + "/:a"
  {
    NumberTextIsLiteral(n);
    FillOnlyPlaceholder("/", "a", "/:a", Num(n));
    assert "/:a/:a" == "/" + ":" + "a" + "/:a";
  }

  /** `$&` in a replacement stands for the matched text. */
  lemma ExpandWholeMatch(matched: string, before: string, after: string)
    ensures Expand(ValueText(Str("$&")), matched, before, after) == matched
  {
    assert "$&"[2..] == [];
    assert matched + [] == matched;
  }

  /** A value whose expansion is the placeholder itself leaves the path as it was. */
  lemma ExpandsToPlaceholderKeepsPath(prefix: string, key: string, rest: string, value: ParamValue)
    requires ':' !in prefix
    requires Expand(ValueText(value), ":" + key, prefix, rest) == ":" + key
    ensures SubstituteAll(prefix + ":" + key + rest, [(key, value)]) == prefix + ":" + key + rest
  {
    FillOnlyPlaceholderExpanded(prefix, key, rest, value);
  }

  /** A string value is a replacement pattern: `$&` puts the placeholder itself back. */
  lemma DollarAmpersandKeepsPlaceholder(prefix: string, key: string, rest: string)
    requires ':' !in prefix
    ensures SubstituteAll(prefix + ":" + key + rest, [(key, Str("$&"))]) == prefix + ":" + key + rest
  {
    ExpandWholeMatch(":" + key, prefix, rest);
    ExpandsToPlaceholderKeepsPath(prefix, key, rest, Str("$&"));
  }

  /** Entries act in order: a value that spells a later placeholder is filled by that later
      entry... */
  lemma LaterEntryFillsEarlierValue(n: int)
    ensures SubstituteAll("/:a", [("a", Str(":b")), ("b", Num(n))]) == "/" + IntToText(n)
  {
    NumberTextIsLiteral(n);
    assert NoDollar(":b");
    SubstituteLiteralAfterPrefix("/", "a", "", Str(":b"));
    SubstituteLiteralAfterPrefix("/", "b", "", Num(n));
    assert "/:a" == "/" + ":" + "a" + "";
    assert "/:b" == "/" + ":" + "b" + "";
    assert "/" + ValueText(Str(":b")) + "" == "/:b";
    assert "/" + ValueText(Num(n)) + "" == "/" + IntToText(n);
    SubstituteAllPair("/:a", ("a", Str(":b")), ("b", Num(n)));
  }

  /** ...but not by an earlier one. */
  lemma EarlierEntryMissesLaterValue(n: int)
    ensures SubstituteAll("/:a", [("b", Num(n)), ("a", Str(":b"))]) == "/:b"
  {
    assert NoDollar(":b");
    var url, placeholder := "/:a", ":" + "b";
    assert url[0..2][0] == '/' && url[1..3][1] == 'a';
    assert IndexOf(url, placeholder, 2) == None;
    assert IndexOf(url, placeholder, 1) == None;
    assert IndexOf(url, placeholder, 0) == None;
    assert "/" + ValueText(Str(":b")) + "" == "/:b";
    SubstituteLiteralAfterPrefix("/", "a", "", Str(":b"));
    assert "/:a" == "/" + ":" + "a" + "";
    SubstituteAllPair("/:a", ("b", Num(n)), ("a", Str(":b")));
  }
}
