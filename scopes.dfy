/**
 * OAuth2 scopes (model/scopes.rs): a closed vocabulary, sets of it, parsing
 * from whitespace-separated text and printing as space-separated text.
 */
module Scopes {
  import opened Wrappers

  datatype Scope = Basic | Email | Dev

  /** A set of scopes; `Default` is the empty set. */
  type ScopeSet = set<Scope>

  /** The `Display` text of one scope. */
  function Name(s: Scope): string {
    match s
    case Basic => "basic"
    case Email => "email"
    case Dev => "dev"
  }

  /** `FromStr` for one scope: exactly the three names, anything else is an error. */
  function ParseScope(t: string): (r: Option<Scope>)
    ensures r.Some? <==> (t == "basic" || t == "email" || t == "dev")
    ensures r.Some? ==> Name(r.value) == t
    ensures r.None? ==> forall s :: Name(s) != t
  {
    if t == "basic" then Some(Basic)
    else if t == "email" then Some(Email)
    else if t == "dev" then Some(Dev)
    else None
  }

  lemma NameParses(s: Scope)
    ensures ParseScope(Name(s)) == Some(s)
  {
  }

  lemma NameInjective(a: Scope, b: Scope)
    requires Name(a) == Name(b)
    ensures a == b
  {
  }

  /** `char::is_ascii_whitespace`: space, tab, line feed, form feed, carriage return. */
  predicate IsAsciiWhitespace(c: char) {
    c == ' ' || c == '\t' || c == '\n' || c == 12 as char || c == '\r'
  }

  predicate NoWhitespace(w: string) {
    forall i :: 0 <= i < |w| ==> !IsAsciiWhitespace(w[i])
  }

  /** A word as `split_ascii_whitespace` yields it: non-empty, no whitespace inside. */
  predicate IsWord(w: string) {
    w != [] && NoWhitespace(w)
  }

  /** Length of the run of non-whitespace characters at the start of `s`. */
  function WordLen(s: string): (n: nat)
    ensures n <= |s|
    ensures NoWhitespace(s[..n])
    ensures n < |s| ==> IsAsciiWhitespace(s[n])
  {
    if s == [] || IsAsciiWhitespace(s[0]) then 0
    else
      var n := WordLen(s[1..]);
      assert s[..n + 1] == [s[0]] + s[1..][..n];
      n + 1
  }

  /** `str::split_ascii_whitespace`: the words of `s`, with no empty pieces. */
  function Words(s: string): (ws: seq<string>)
    ensures forall i :: 0 <= i < |ws| ==> IsWord(ws[i])
    decreases |s|
  {
    if s == [] then []
    else if IsAsciiWhitespace(s[0]) then Words(s[1..])
    else
      var n := WordLen(s);
      [s[..n]] + Words(s[n..])
  }

  /** Words separated by single spaces, with nothing before the first or after the last. */
  function Join(ws: seq<string>): string {
    if ws == [] then ""
    else if |ws| == 1 then ws[0]
    else ws[0] + " " + Join(ws[1..])
  }

  /** Every word is the name of a scope. */
  predicate AllKnown(ws: seq<string>) {
    forall i :: 0 <= i < |ws| ==> ParseScope(ws[i]).Some?
  }

  /** Parse every word; one unknown word fails the whole parse. */
  function ParseAll(ws: seq<string>): (r: Option<ScopeSet>)
    ensures r.Some? <==> AllKnown(ws)
    ensures r.Some? ==> forall s :: s in r.value <==> Name(s) in ws
  {
    if ws == [] then Some({})
    else
      match (ParseScope(ws[0]), ParseAll(ws[1..]))
      case (Some(s), Some(rest)) =>
        assert forall x :: Name(x) in ws <==> Name(x) == ws[0] || Name(x) in ws[1..];
        Some({s} + rest)
      case (None, _) => None
      case (Some(_), None) =>
        var i :| 0 <= i < |ws[1..]| && ParseScope(ws[1..][i]).None?;
        assert ws[1..][i] == ws[i + 1];
        None
  }

  /** `FromStr` for a scope set: split on ASCII whitespace, parse each word, collect into a set. */
  function ParseScopes(text: string): (r: Option<ScopeSet>)
    ensures r.Some? <==> AllKnown(Words(text))
    ensures r.Some? ==> forall s :: s in r.value <==> Name(s) in Words(text)
  {
    var ws := Words(text);
    ParseAll(ws)
  }

  /** The serde `Deserialize` impl: the string form, parsed, with a fixed error message. */
  function DeserializeScopes(text: string): (r: Result<ScopeSet, string>)
    ensures r.Ok? <==> ParseScopes(text).Some?
    ensures r.Ok? ==> Some(r.value) == ParseScopes(text)
    ensures r.Err? ==> r.error == "cannot parse scopes"
  {
    match ParseScopes(text)
    case Some(s) => Ok(s)
    case None => Err("cannot parse scopes")
  }

  /** The names of the scopes in `order`, in that order. */
  function Names(order: seq<Scope>): (ns: seq<string>)
    ensures |ns| == |order|
    ensures forall i :: 0 <= i < |order| ==> ns[i] == Name(order[i])
  {
    if order == [] then [] else [Name(order[0])] + Names(order[1..])
  }

  /** `order` lists every member of `scopes` exactly once. */
  ghost predicate Enumerates(order: seq<Scope>, scopes: ScopeSet) {
    && (forall i :: 0 <= i < |order| ==> order[i] in scopes)
    && (forall s :: s in scopes ==> s in order)
    && (forall i, j :: 0 <= i < j < |order| ==> order[i] != order[j])
  }

  // ---- splitting and joining ----

  lemma {:induction false} WordLenOfWord(w: string, rest: string)
    requires NoWhitespace(w)
    requires rest == [] || IsAsciiWhitespace(rest[0])
    ensures WordLen(w + rest) == |w|
    decreases |w|
  {
    if w != [] {
      assert (w + rest)[1..] == w[1..] + rest;
      assert NoWhitespace(w[1..]) by {
        forall i | 0 <= i < |w[1..]| ensures !IsAsciiWhitespace(w[1..][i]) { assert w[1..][i] == w[i + 1]; }
      }
      WordLenOfWord(w[1..], rest);
    } else {
      assert w + rest == rest;
    }
  }

  /** Whitespace in front of the text does not change its words. */
  lemma {:induction false} WordsSkipsSpace(s: string)
    ensures Words(" " + s) == Words(s)
  {
    assert (" " + s)[1..] == s;
  }

  /** Splitting the single-space join of words gives the words back. */
  lemma {:induction false} WordsOfJoin(ws: seq<string>)
    requires forall i :: 0 <= i < |ws| ==> IsWord(ws[i])
    ensures Words(Join(ws)) == ws
    decreases |ws|
  {
    if ws == [] {
    } else if |ws| == 1 {
      var w := ws[0];
      WordLenOfWord(w, []);
      assert w + [] == w;
      assert w[|w|..] == [];
    } else {
      var w, rest := ws[0], Join(ws[1..]);
      var s := w + " " + rest;
      assert s == w + (" " + rest);
      WordLenOfWord(w, " " + rest);
      assert s[0] == w[0];
      assert s[..|w|] == w;
      assert s[|w|..] == " " + rest;
      WordsSkipsSpace(rest);
      WordsOfJoin(ws[1..]);
      assert Words(s) == [w] + ws[1..];
    }
  }

  /** Appending a word to a non-empty join adds one space and the word. */
  lemma {:induction false} JoinSnoc(ws: seq<string>, w: string)
    requires ws != []
    ensures Join(ws + [w]) == Join(ws) + " " + w
    decreases |ws|
  {
    if |ws| == 1 {
      assert ws + [w] == [ws[0], w];
    } else {
      assert (ws + [w])[1..] == ws[1..] + [w];
      JoinSnoc(ws[1..], w);
    }
  }

  lemma NamesAreWords(order: seq<Scope>)
    ensures forall i :: 0 <= i < |Names(order)| ==> IsWord(Names(order)[i])
  {
    forall i | 0 <= i < |Names(order)| ensures IsWord(Names(order)[i]) {
      var s := order[i];
      assert Names(order)[i] == Name(s);
      match s
      case Basic =>
      case Email =>
      case Dev =>
    }
  }

  /** Printing any enumeration of a set and parsing the text back gives the set. */
  lemma ParseJoinedNames(order: seq<Scope>, scopes: ScopeSet)
    requires Enumerates(order, scopes)
    ensures ParseScopes(Join(Names(order))) == Some(scopes)
    ensures |Words(Join(Names(order)))| == |scopes|
  {
    NamesAreWords(order);
    WordsOfJoin(Names(order));
    var ws := Names(order);
    assert Words(Join(ws)) == ws;
    forall i | 0 <= i < |ws| ensures ParseScope(ws[i]).Some? {
      NameParses(order[i]);
    }
    assert AllKnown(ws);
    var r := ParseAll(ws);
    assert ParseScopes(Join(ws)) == r;
    forall s ensures s in r.value <==> s in scopes {
      if s in scopes {
        var i :| 0 <= i < |order| && order[i] == s;
        assert ws[i] == Name(s);
      }
      if s in r.value {
        var i :| 0 <= i < |ws| && ws[i] == Name(s);
        NameInjective(order[i], s);
      }
    }
    assert r.value == scopes;
    EnumerationSize(order, scopes);
  }

  lemma {:induction false} EnumerationSize(order: seq<Scope>, scopes: ScopeSet)
    requires Enumerates(order, scopes)
    ensures |order| == |scopes|
    decreases |order|
  {
    if order != [] {
      var last := order[|order| - 1];
      var front := order[..|order| - 1];
      assert Enumerates(front, scopes - {last}) by {
        forall s | s in scopes - {last} ensures s in front {
          var i :| 0 <= i < |order| && order[i] == s;
          assert i != |order| - 1;
          assert front[i] == s;
        }
      }
      EnumerationSize(front, scopes - {last});
    } else {
      assert forall s :: s !in scopes;
      assert scopes == {};
    }
  }

  /**
   * `Display` for a scope set: a loop over the set in its (unspecified) iteration
   * order, writing a space before every member but the first.
   */
  method Format(scopes: ScopeSet) returns (text: string)
    ensures ParseScopes(text) == Some(scopes)
    ensures Join(Words(text)) == text
    ensures |Words(text)| == |scopes|
  {
    text := "";
    ghost var order: seq<Scope> := [];
    var rest := scopes;
    var idx := 0;
    while rest != {}
      invariant idx == |order|
      invariant text == Join(Names(order))
      invariant forall i :: 0 <= i < |order| ==> order[i] in scopes && order[i] !in rest
      invariant forall i, j :: 0 <= i < j < |order| ==> order[i] != order[j]
      invariant rest <= scopes
      invariant forall s :: s in scopes ==> s in rest || s in order
      decreases |rest|
    {
      var s :| s in rest;
      if idx != 0 {
        text := text + " ";
      }
      text := text + Name(s);
      if idx != 0 {
        JoinSnoc(Names(order), Name(s));
      }
      assert Names(order + [s]) == Names(order) + [Name(s)];
      order := order + [s];
      rest := rest - {s};
      idx := idx + 1;
    }
    ParseJoinedNames(order, scopes);
    NamesAreWords(order);
    WordsOfJoin(Names(order));
  }

  /** Empty or whitespace-only text is the empty set, the `Default`. */
  lemma {:induction false} BlankParsesEmpty(text: string)
    requires forall i :: 0 <= i < |text| ==> IsAsciiWhitespace(text[i])
    ensures ParseScopes(text) == Some({})
    decreases |text|
  {
    if text != [] {
      assert forall i :: 0 <= i < |text[1..]| ==> IsAsciiWhitespace(text[1..][i]) by {
        forall i | 0 <= i < |text[1..]| ensures IsAsciiWhitespace(text[1..][i]) { assert text[1..][i] == text[i + 1]; }
      }
      BlankParsesEmpty(text[1..]);
    }
  }

  /** The test of the source: "basic email" is {Basic, Email}. */
  lemma ParseBasicEmail()
    ensures ParseScopes("basic email") == Some({Basic, Email})
  {
    var order := [Basic, Email];
    assert Names(order) == ["basic", "email"];
    assert Join(["basic", "email"]) == "basic email";
    ParseJoinedNames(order, {Basic, Email});
  }

  /** Repeating a word that is already there changes nothing: the result is a set. */
  lemma DuplicateWordCollapses(ws: seq<string>, k: nat)
    requires k < |ws|
    ensures ParseAll(ws + [ws[k]]) == ParseAll(ws)
  {
    var ws' := ws + [ws[k]];
    assert AllKnown(ws') <==> AllKnown(ws) by {
      if AllKnown(ws) {
        forall i | 0 <= i < |ws'| ensures ParseScope(ws'[i]).Some? {
          if i < |ws| { assert ws'[i] == ws[i]; } else { assert ws'[i] == ws[k]; }
        }
      }
      if AllKnown(ws') {
        forall i | 0 <= i < |ws| ensures ParseScope(ws[i]).Some? { assert ws'[i] == ws[i]; }
      }
    }
    if AllKnown(ws) {
      var a, b := ParseAll(ws'), ParseAll(ws);
      forall s ensures s in a.value <==> s in b.value {
        assert Name(s) in ws' <==> Name(s) in ws by {
          assert ws' == ws + [ws[k]];
        }
      }
      assert a.value == b.value;
    }
  }
}
