/** How the committed vote arrays travel: written as bracketed text by one service or sent as arrays, and parsed by
    the other. */
module VoteCodec {
  import opened Transactions
  import opened Votes

  /** A value of a request body. */
  datatype JsValue = JsBool(b: bool) | JsString(s: string) | JsNumber(n: int) | JsOther

  /** A field of a request body: text, an array, or something else. */
  datatype Input = TextInput(text: string) | ArrayInput(values: seq<JsValue>) | OtherInput

  // ---- Text operations ----

  /** `replace` with a plain text pattern: the first occurrence only. */
  function RemoveFirst(s: string, ch: char): string {
    if s == "" then ""
    else if s[0] == ch then s[1..]
    else [s[0]] + RemoveFirst(s[1..], ch)
  }

  /** `split`: always at least one piece. */
  function Split(s: string, sep: char): (pieces: seq<string>)
    ensures |pieces| >= 1
    ensures forall p :: p in pieces ==> sep !in p
  {
    if s == "" then [""]
    else
      var rest := Split(s[1..], sep);
      if s[0] == sep then [""] + rest
      else
        assert rest[0] in rest;
        [[s[0]] + rest[0]] + rest[1..]
  }

  function Join(pieces: seq<string>, sep: char): string {
    if pieces == [] then ""
    else if |pieces| == 1 then pieces[0]
    else pieces[0] + [sep] + Join(pieces[1..], sep)
  }

  /** A list as the sending service's formatter writes it. */
  function Bracketed(pieces: seq<string>): string {
    "[" + Join(pieces, ' ') + "]"
  }

  /** The receiving service strips the first bracket of each kind and splits at spaces. */
  function Pieces(text: string): seq<string> {
    Split(RemoveFirst(RemoveFirst(text, '['), ']'), ' ')
  }

  function Lower(s: string): string {
    if s == "" then ""
    else [if 'A' <= s[0] <= 'Z' then s[0] - 'A' + 'a' else s[0]] + Lower(s[1..])
  }

  function BoolText(b: bool): string {
    if b then "true" else "false"
  }

  // ---- The parser ----

  predicate BoolPiece(s: string) {
    Lower(s) == "true" || Lower(s) == "false"
  }

  function ParseVotes(input: Input): Option<seq<bool>> {
    match input
    case TextInput(text) =>
      var pieces := Pieces(text);
      if exists i :: 0 <= i < |pieces| && !BoolPiece(pieces[i]) then None
      else Some(seq(|pieces|, i requires 0 <= i < |pieces| => Lower(pieces[i]) == "true"))
    case ArrayInput(values) =>
      if exists i :: 0 <= i < |values| && !values[i].JsBool? then None
      else Some(seq(|values|, i requires 0 <= i < |values| && values[i].JsBool? => values[i].b))
    case OtherInput => None
  }

  function ParseKeys(input: Input): Option<seq<string>> {
    match input
    case TextInput(text) => Some(Pieces(text))
    case ArrayInput(values) =>
      if exists i :: 0 <= i < |values| && !values[i].JsString? then None
      else Some(seq(|values|, i requires 0 <= i < |values| && values[i].JsString? => values[i].s))
    case OtherInput => None
  }

  /** The pieces of a text are strings, and the test asks for numbers. */
  function ParseIds(input: Input): Option<seq<int>> {
    match input
    case TextInput(text) =>
      if exists i :: 0 <= i < |Pieces(text)| && !JsString(Pieces(text)[i]).JsNumber? then None else Some([])
    case ArrayInput(values) =>
      if exists i :: 0 <= i < |values| && !values[i].JsNumber? then None
      else Some(seq(|values|, i requires 0 <= i < |values| && values[i].JsNumber? => values[i].n))
    case OtherInput => None
  }

  function ParseCommit(votes: Input, keys: Input, ids: Input): Option<Arrays> {
    var v, k, u := ParseVotes(votes), ParseKeys(keys), ParseIds(ids);
    if v.Some? && k.Some? && u.Some? then Some(Arrays(v.value, k.value, u.value)) else None
  }

  // ---- Arrays arrive unchanged ----

  function VotesAsArray(votes: seq<bool>): Input {
    ArrayInput(seq(|votes|, i requires 0 <= i < |votes| => JsBool(votes[i])))
  }

  function KeysAsArray(keys: seq<string>): Input {
    ArrayInput(seq(|keys|, i requires 0 <= i < |keys| => JsString(keys[i])))
  }

  function IdsAsArray(ids: seq<int>): Input {
    ArrayInput(seq(|ids|, i requires 0 <= i < |ids| => JsNumber(ids[i])))
  }

  /** Every payload sent as arrays is parsed back unchanged. */
  lemma ArraysRoundTrip(p: Arrays)
    ensures ParseCommit(VotesAsArray(p.votes), KeysAsArray(p.keys), IdsAsArray(p.users)) == Some(p)
  {
    var votes := ParseVotes(VotesAsArray(p.votes));
    assert votes.Some? && votes.value == p.votes;
    var keys := ParseKeys(KeysAsArray(p.keys));
    assert keys.Some? && keys.value == p.keys;
    var ids := ParseIds(IdsAsArray(p.users));
    assert ids.Some? && ids.value == p.users;
  }

  /** Arrays are accepted exactly when every entry has its type, and then unchanged. */
  lemma ArraysAcceptedExactly(votes: seq<JsValue>, keys: seq<JsValue>, ids: seq<JsValue>, p: Arrays)
    ensures ParseCommit(ArrayInput(votes), ArrayInput(keys), ArrayInput(ids)) == Some(p)
            <==> ArrayInput(votes) == VotesAsArray(p.votes) && ArrayInput(keys) == KeysAsArray(p.keys)
                 && ArrayInput(ids) == IdsAsArray(p.users)
  {
    ArraysRoundTrip(p);
    if ParseCommit(ArrayInput(votes), ArrayInput(keys), ArrayInput(ids)) == Some(p) {
      assert ArrayInput(votes) == VotesAsArray(p.votes);
      assert ArrayInput(keys) == KeysAsArray(p.keys);
      assert ArrayInput(ids) == IdsAsArray(p.users);
    }
  }

  /** No text is ever accepted for the user ids, so a payload written as text is always rejected. */
  lemma TextIdsAlwaysRejected(text: string, votes: Input, keys: Input)
    ensures ParseIds(TextInput(text)) == None && ParseCommit(votes, keys, TextInput(text)) == None
  {
    assert !JsString(Pieces(text)[0]).JsNumber?;
  }

  // ---- Splitting undoes joining ----

  lemma {:induction false} JoinSplit(s: string, sep: char)
    ensures Join(Split(s, sep), sep) == s
  {
    if s != "" {
      var rest := Split(s[1..], sep);
      JoinSplit(s[1..], sep);
      if s[0] == sep {
        assert ([""] + rest)[1..] == rest;
        assert Join(Split(s, sep), sep) == "" + [sep] + Join(rest, sep);
      } else {
        var head := [s[0]] + rest[0];
        assert ([head] + rest[1..])[1..] == rest[1..];
        if |rest| > 1 {
          assert Join(Split(s, sep), sep) == head + [sep] + Join(rest[1..], sep);
          assert Join(rest, sep) == rest[0] + [sep] + Join(rest[1..], sep);
        }
      }
      assert s == [s[0]] + s[1..];
    }
  }

  predicate Separable(pieces: seq<string>, sep: char) {
    pieces != [] && forall i :: 0 <= i < |pieces| ==> sep !in pieces[i]
  }

  lemma {:induction false} SplitPrefix(a: string, s: string, sep: char)
    requires sep !in a
    ensures var rest := Split(s, sep);
            Split(a + s, sep) == [a + rest[0]] + rest[1..]
  {
    if a == "" {
      var rest := Split(s, sep);
      assert a + s == s && a + rest[0] == rest[0];
      assert [rest[0]] + rest[1..] == rest;
    } else {
      assert (a + s)[1..] == a[1..] + s && a[0] in a;
      SplitPrefix(a[1..], s, sep);
      assert [a[0]] + (a[1..] + Split(s, sep)[0]) == a + Split(s, sep)[0];
    }
  }

  lemma {:induction false} SplitJoin(pieces: seq<string>, sep: char)
    requires Separable(pieces, sep)
    ensures Split(Join(pieces, sep), sep) == pieces
    decreases |pieces|
  {
    if |pieces| == 1 {
      SplitPrefix(pieces[0], "", sep);
      assert pieces[0] + "" == pieces[0];
      assert [pieces[0]] + [""][1..] == pieces;
    } else {
      var tail := [sep] + Join(pieces[1..], sep);
      SplitJoin(pieces[1..], sep);
      assert tail[1..] == Join(pieces[1..], sep);
      assert Split(tail, sep) == [""] + pieces[1..];
      SplitPrefix(pieces[0], tail, sep);
      assert pieces[0] + tail == Join(pieces, sep);
      assert pieces[0] + "" == pieces[0];
      assert ([""] + pieces[1..])[1..] == pieces[1..];
      assert [pieces[0]] + pieces[1..] == pieces;
    }
  }

  // ---- Text round trips, exactly when ----

  /** After the first closing bracket there are only closing brackets. */
  predicate OnlyTrailing(s: string) {
    forall i, j :: 0 <= i < j < |s| && s[i] == ']' ==> s[j] == ']'
  }

  lemma {:induction false} AllSame(s: string, ch: char)
    requires s + [ch] == [ch] + s
    ensures forall i :: 0 <= i < |s| ==> s[i] == ch
  {
    if s != "" {
      assert (s + [ch])[0] == ([ch] + s)[0] && s[0] == ch;
      assert s == [ch] + s[1..];
      assert (s + [ch])[1..] == s[1..] + [ch] && ([ch] + s)[1..] == s;
      AllSame(s[1..], ch);
    }
  }

  lemma AllSameRotates(s: string, ch: char)
    requires forall i :: 0 <= i < |s| ==> s[i] == ch
    ensures s + [ch] == [ch] + s
  {
  }

  /** Removing the first closing bracket removes the one that was added exactly when only brackets can precede it. */
  lemma {:induction false} RemoveClosing(s: string)
    ensures RemoveFirst(s + "]", ']') == s <==> OnlyTrailing(s)
  {
    if s == "" {
      assert "" + "]" == "]";
    } else {
      assert (s + "]")[1..] == s[1..] + "]" && s == [s[0]] + s[1..];
      if s[0] == ']' {
        if s[1..] + "]" == s {
          assert s[1..] + [']'] == [']'] + s[1..];
          AllSame(s[1..], ']');
        }
        if OnlyTrailing(s) { AllSameRotates(s[1..], ']'); }
      } else {
        RemoveClosing(s[1..]);
        assert OnlyTrailing(s) <==> OnlyTrailing(s[1..]) by {
          assert forall i :: 0 <= i < |s[1..]| ==> s[1..][i] == s[i + 1];
          if OnlyTrailing(s[1..]) {
            forall i, j | 0 <= i < j < |s| && s[i] == ']'
              ensures s[j] == ']'
            {
              assert s[1..][i - 1] == ']' && s[1..][j - 1] == s[j];
            }
          }
        }
      }
    }
  }

  lemma StripBrackets(pieces: seq<string>)
    ensures Pieces(Bracketed(pieces)) == Split(RemoveFirst(Join(pieces, ' ') + "]", ']'), ' ')
  {
    var body := Join(pieces, ' ') + "]";
    assert Bracketed(pieces) == "[" + body && ("[" + body)[1..] == body;
  }

  /** Keys written as text come back unchanged if and only if there are keys, none contains a space, and a closing
      bracket occurs, if at all, only at the very end of the last one. */
  lemma KeyTextRoundTripsExactly(keys: seq<string>)
    ensures ParseKeys(TextInput(Bracketed(keys))) == Some(keys)
            <==> Separable(keys, ' ') && OnlyTrailing(Join(keys, ' '))
  {
    StripBrackets(keys);
    var body := Join(keys, ' ');
    var stripped := RemoveFirst(body + "]", ']');
    RemoveClosing(body);
    JoinSplit(stripped, ' ');
    if Separable(keys, ' ') { SplitJoin(keys, ' '); }
    if Split(stripped, ' ') == keys {
      forall i | 0 <= i < |keys| ensures ' ' !in keys[i] { assert keys[i] in keys; }
    }
  }

  function BoolTexts(votes: seq<bool>): seq<string> {
    seq(|votes|, i requires 0 <= i < |votes| => BoolText(votes[i]))
  }

  lemma {:induction false} JoinHasNo(pieces: seq<string>, ch: char, sep: char)
    requires ch != sep && forall i :: 0 <= i < |pieces| ==> ch !in pieces[i]
    ensures ch !in Join(pieces, sep)
    decreases |pieces|
  {
    if |pieces| > 1 { JoinHasNo(pieces[1..], ch, sep); }
  }

  lemma BoolPieces(b: bool)
    ensures Lower(BoolText(b)) == BoolText(b) && ' ' !in BoolText(b) && ']' !in BoolText(b)
  {
    assert Lower("true") == "true" by {
      assert "true"[1..] == "rue" && "rue"[1..] == "ue" && "ue"[1..] == "e" && "e"[1..] == "";
      assert Lower("ue") == "ue";
    }
    assert Lower("false") == "false" by {
      assert "false"[1..] == "alse" && "alse"[1..] == "lse" && "lse"[1..] == "se" && "se"[1..] == "e" && "e"[1..] == "";
      assert Lower("se") == "se";
      assert Lower("alse") == "alse";
    }
  }

  /** Votes written as text come back unchanged if and only if there is at least one. */
  lemma VoteTextRoundTripsExactly(votes: seq<bool>)
    ensures ParseVotes(TextInput(Bracketed(BoolTexts(votes)))) == Some(votes) <==> votes != []
  {
    var texts := BoolTexts(votes);
    BoolPieces(true);
    BoolPieces(false);
    StripBrackets(texts);
    RemoveClosing(Join(texts, ' '));
    if votes == [] {
      assert Join(texts, ' ') == "";
      assert Pieces(Bracketed(texts)) == [""] && !BoolPiece(Pieces(Bracketed(texts))[0]);
    } else {
      JoinHasNo(texts, ']', ' ');
      SplitJoin(texts, ' ');
      assert Pieces(Bracketed(texts)) == texts;
      var parsed := ParseVotes(TextInput(Bracketed(texts)));
      assert forall i :: 0 <= i < |votes| ==> BoolPiece(texts[i]) && (Lower(texts[i]) == "true" <==> votes[i]);
      assert parsed.Some? && parsed.value == votes;
    }
  }

  predicate OneOf(ch: char, small: char, large: char) {
    ch == small || ch == large
  }

  /** The five letters of "false" and the four of "true", each in either case. */
  predicate SpellsTrue(s: string) {
    |s| == 4 && OneOf(s[0], 't', 'T') && OneOf(s[1], 'r', 'R') && OneOf(s[2], 'u', 'U') && OneOf(s[3], 'e', 'E')
  }

  predicate SpellsFalse(s: string) {
    |s| == 5 && OneOf(s[0], 'f', 'F') && OneOf(s[1], 'a', 'A') && OneOf(s[2], 'l', 'L') && OneOf(s[3], 's', 'S')
    && OneOf(s[4], 'e', 'E')
  }

  function LowerChar(ch: char): char {
    if 'A' <= ch <= 'Z' then ch - 'A' + 'a' else ch
  }

  lemma {:induction false} LowerByChar(s: string)
    ensures |Lower(s)| == |s| && forall i :: 0 <= i < |s| ==> Lower(s)[i] == LowerChar(s[i])
  {
    if s != "" { LowerByChar(s[1..]); }
  }

  lemma LowerSpells(s: string)
    ensures Lower(s) == "true" <==> SpellsTrue(s)
    ensures Lower(s) == "false" <==> SpellsFalse(s)
  {
    LowerByChar(s);
  }

  /** A text of votes is accepted exactly when every piece spells one of the two words, in whatever case, and each vote
      is true exactly when its piece spells that word. */
  lemma VoteTextAcceptedExactly(text: string, votes: seq<bool>)
    ensures ParseVotes(TextInput(text)) == Some(votes)
            <==> |votes| == |Pieces(text)|
                 && forall i :: 0 <= i < |votes| ==>
                      (votes[i] && SpellsTrue(Pieces(text)[i])) || (!votes[i] && SpellsFalse(Pieces(text)[i]))
  {
    var pieces := Pieces(text);
    forall i | 0 <= i < |pieces|
      ensures Lower(pieces[i]) == "true" <==> SpellsTrue(pieces[i])
      ensures Lower(pieces[i]) == "false" <==> SpellsFalse(pieces[i])
    {
      LowerSpells(pieces[i]);
    }
    if |votes| == |pieces| && forall i :: 0 <= i < |votes| ==>
         (votes[i] && SpellsTrue(pieces[i])) || (!votes[i] && SpellsFalse(pieces[i]))
    {
      TextParsed(text, votes);
    }
  }

  // ---- The parser as written ----

  lemma TextParsed(text: string, votes: seq<bool>)
    requires |votes| == |Pieces(text)|
    requires forall k :: 0 <= k < |votes| ==>
               BoolPiece(Pieces(text)[k]) && votes[k] == (Lower(Pieces(text)[k]) == "true")
    ensures ParseVotes(TextInput(text)) == Some(votes)
  {
    var parsed := ParseVotes(TextInput(text));
    assert parsed.Some? && parsed.value == votes;
  }

  /** The loop over the pieces of a text. */
  method ConvertVoteText(text: string) returns (votes: Option<seq<bool>>)
    ensures votes == ParseVotes(TextInput(text))
  {
    var pieces := Pieces(text);
    var votesStr: seq<bool> := [];
    var i := 0;
    while i < |pieces|
      invariant i <= |pieces| && |votesStr| == i
      invariant forall k :: 0 <= k < i ==> BoolPiece(pieces[k]) && votesStr[k] == (Lower(pieces[k]) == "true")
    {
      var isTrue := Lower(pieces[i]) == "true";
      if !isTrue && Lower(pieces[i]) != "false" {
        assert !BoolPiece(pieces[i]);
        return None;
      }
      votesStr := votesStr + [isTrue];
      i := i + 1;
    }
    TextParsed(text, votesStr);
    return Some(votesStr);
  }

  /** The loop over the ids. */
  method ConvertIds(values: seq<JsValue>) returns (ids: Option<seq<int>>)
    ensures ids == ParseIds(ArrayInput(values))
  {
    var userIdsInt: seq<int> := [];
    var i := 0;
    while i < |values|
      invariant i <= |values| && |userIdsInt| == i
      invariant forall k :: 0 <= k < i ==> values[k].JsNumber? && userIdsInt[k] == values[k].n
    {
      if !values[i].JsNumber? { return None; }
      userIdsInt := userIdsInt + [values[i].n];
      i := i + 1;
    }
    ghost var parsed := ParseIds(ArrayInput(values));
    assert parsed.Some? && parsed.value == userIdsInt;
    return Some(userIdsInt);
  }
}
