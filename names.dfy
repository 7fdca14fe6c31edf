/**
 * The name generator of names.py: a token vocabulary read from a list of lines, a greedy
 * longest-match tokenizer and its inverse, a corpus of sentinel-framed names, and a
 * Markov-style extension that picks each next token among the continuations seen in the corpus.
 * File contents are given as sequences of lines; `random.choice` is an input index.
 */
module Names {
  import opened Wrappers
  import opened Strings

  const START_TOKEN: int := -2
  const END_TOKEN: int := -1

  // ---------------------------------------------------------------- load_tokens

  /** `string_to_token` after reading `lines`: each stripped line maps to its (last) index. */
  function StringToToken(lines: seq<string>): map<string, int> {
    if lines == [] then map[">" := END_TOKEN, "<" := START_TOKEN]
    else StringToToken(lines[..|lines| - 1])[Strip(lines[|lines| - 1]) := |lines| - 1]
  }

  /** `token_to_string` after reading `lines`: each index maps to its stripped line. */
  function TokenToString(lines: seq<string>): map<int, string> {
    if lines == [] then map[END_TOKEN := ">", START_TOKEN := "<"]
    else TokenToString(lines[..|lines| - 1])[|lines| - 1 := Strip(lines[|lines| - 1])]
  }

  /** Looking a string's token up again gives the string back. */
  ghost predicate Inverse(s2t: map<string, int>, t2s: map<int, string>) {
    forall s :: s in s2t ==> s2t[s] in t2s && t2s[s2t[s]] == s
  }

  /** `token_to_string` holds the two sentinels and exactly the indices of the lines, each with its stripped line. */
  lemma {:induction false} TokenToStringShape(lines: seq<string>)
    ensures forall t :: t in TokenToString(lines) <==> t == START_TOKEN || t == END_TOKEN || 0 <= t < |lines|
    ensures TokenToString(lines)[START_TOKEN] == "<" && TokenToString(lines)[END_TOKEN] == ">"
    ensures forall k :: 0 <= k < |lines| ==> TokenToString(lines)[k] == Strip(lines[k])
  {
    if lines != [] {
      var last := |lines| - 1;
      var init := lines[..last];
      TokenToStringShape(init);
      var t2s := TokenToString(lines);
      assert t2s == TokenToString(init)[last := Strip(lines[last])];
      forall k | 0 <= k < |lines|
        ensures t2s[k] == Strip(lines[k])
      {
        if k < last {
          assert init[k] == lines[k];
        }
      }
    }
  }

  /** `string_to_token` holds the two sentinels and exactly the stripped lines, each with an index in range. */
  lemma {:induction false} StringToTokenShape(lines: seq<string>)
    ensures forall s :: s in StringToToken(lines) ==> -2 <= StringToToken(lines)[s] < |lines|
    ensures forall s :: s in StringToToken(lines) <==> s == "<" || s == ">" || exists k :: 0 <= k < |lines| && Strip(lines[k]) == s
  {
    if lines != [] {
      var last := |lines| - 1;
      var init := lines[..last];
      StringToTokenShape(init);
      var before := StringToToken(init);
      var s2t := StringToToken(lines);
      var s := Strip(lines[last]);
      assert s2t == before[s := last];
      forall x | x in s2t && x != "<" && x != ">"
        ensures exists k :: 0 <= k < |lines| && Strip(lines[k]) == x
      {
        if x != s {
          assert x in before;
          var k :| 0 <= k < |init| && Strip(init[k]) == x;
          assert init[k] == lines[k];
        } else {
          assert Strip(lines[last]) == x;
        }
      }
      forall x | exists k :: 0 <= k < |lines| && Strip(lines[k]) == x
        ensures x in s2t
      {
        var k :| 0 <= k < |lines| && Strip(lines[k]) == x;
        if k < last {
          assert init[k] == lines[k];
          assert x in before;
        }
      }
    }
  }

  /** Each string's token looks up to the string again. */
  lemma {:induction false} TokenMapsInverseStep(lines: seq<string>)
    ensures Inverse(StringToToken(lines), TokenToString(lines))
  {
    if lines != [] {
      var init := lines[..|lines| - 1];
      TokenMapsInverseStep(init);
      StringToTokenShape(init);
      var s := Strip(lines[|lines| - 1]);
      var s2t, t2s := StringToToken(lines), TokenToString(lines);
      forall x | x in s2t
        ensures s2t[x] in t2s && t2s[s2t[x]] == x
      {
        if x != s {
          assert StringToToken(init)[x] < |init|;
        }
      }
    }
  }

  /** The two maps built from the same lines are inverse to each other, and hold the sentinels. */
  lemma TokenMapsInverse(lines: seq<string>)
    ensures Inverse(StringToToken(lines), TokenToString(lines))
    ensures forall s :: s in StringToToken(lines) ==> -2 <= StringToToken(lines)[s] < |lines|
    ensures forall t :: t in TokenToString(lines) <==> t == START_TOKEN || t == END_TOKEN || 0 <= t < |lines|
    ensures TokenToString(lines)[START_TOKEN] == "<" && TokenToString(lines)[END_TOKEN] == ">"
    ensures forall k :: 0 <= k < |lines| ==> TokenToString(lines)[k] == Strip(lines[k])
    ensures forall s :: s in StringToToken(lines) <==> s == "<" || s == ">" || exists k :: 0 <= k < |lines| && Strip(lines[k]) == s
  {
    TokenMapsInverseStep(lines);
    StringToTokenShape(lines);
    TokenToStringShape(lines);
  }

  /** `load_tokens`: fill both maps from the lines, starting from the two sentinels. */
  method LoadTokens(lines: seq<string>) returns (s2t: map<string, int>, t2s: map<int, string>)
    ensures s2t == StringToToken(lines) && t2s == TokenToString(lines)
    ensures Inverse(s2t, t2s)
  {
    s2t := map[">" := END_TOKEN, "<" := START_TOKEN];
    t2s := map[END_TOKEN := ">", START_TOKEN := "<"];
    for i := 0 to |lines|
      invariant s2t == StringToToken(lines[..i]) && t2s == TokenToString(lines[..i])
    {
      assert lines[..i + 1][..i] == lines[..i];
      s2t := s2t[Strip(lines[i]) := i];
      t2s := t2s[i := Strip(lines[i])];
    }
    assert lines[..|lines|] == lines;
    TokenMapsInverse(lines);
  }

  // ---------------------------------------------------------------- tokenify / stringify

  /** The largest `k` in 1..j with `s[..k]` in the map, or 0 when there is none. */
  function LongestMatch(s: string, m: map<string, int>, j: nat): (k: nat)
    requires j <= |s|
    ensures k <= j
    ensures k > 0 ==> s[..k] in m
    ensures forall k' :: k < k' <= j ==> s[..k'] !in m
  {
    if j == 0 then 0 else if s[..j] in m then j else LongestMatch(s, m, j - 1)
  }

  /**
   * Greedy longest-match tokenization: None when some position reached has no match,
   * where the source's loop never ends.
   */
  function Greedy(s: string, m: map<string, int>): Option<seq<int>>
    decreases |s|
  {
    if s == [] then Some([])
    else
      var k := LongestMatch(s, m, |s|);
      if k == 0 then None
      else match Greedy(s[k..], m)
        case None => None
        case Some(rest) => Some([m[s[..k]]] + rest)
  }

  predicate Tokenizable(s: string, m: map<string, int>) { Greedy(s, m).Some? }

  function Tokens(s: string, m: map<string, int>): seq<int>
    requires Tokenizable(s, m)
  {
    Greedy(s, m).value
  }

  /** What `tokenify` returns: the greedy tokens, or `[START_TOKEN]` when there are none. */
  function TokenifyResult(s: string, m: map<string, int>): seq<int>
    requires Tokenizable(s, m)
  {
    if Tokens(s, m) == [] then [START_TOKEN] else Tokens(s, m)
  }

  /** `tokenify`: from each position take the longest substring that is a token. */
  method Tokenify(s: string, m: map<string, int>) returns (tokens: seq<int>)
    requires Tokenizable(s, m)
    ensures tokens == TokenifyResult(s, m)
    ensures |tokens| > 0
  {
    tokens := [];
    var i := 0;
    while i < |s|
      invariant 0 <= i <= |s|
      invariant Tokenizable(s[i..], m)
      invariant tokens + Tokens(s[i..], m) == Tokens(s, m)
    {
      ghost var k := LongestMatch(s[i..], m, |s| - i);
      assert s[i..][..k] == s[i..i + k];
      var j := |s|;
      while j > i && s[i..j] !in m
        invariant i + k <= j <= |s|
        decreases j
      {
        assert s[i..][..j - i] == s[i..j];
        j := j - 1;
      }
      assert s[i..][..j - i] == s[i..j];
      assert s[i..][k..] == s[j..];
      tokens := tokens + [m[s[i..j]]];
      i := j;
    }
    assert s[|s|..] == [];
    if |tokens| == 0 {
      tokens := [START_TOKEN];
    }
  }

  /** Every token is known to `t2s`. */
  predicate Known(tokens: seq<int>, t2s: map<int, string>) {
    forall k :: 0 <= k < |tokens| ==> tokens[k] in t2s
  }

  /** The concatenation of the strings of the tokens. */
  function Stringified(tokens: seq<int>, t2s: map<int, string>): string
    requires Known(tokens, t2s)
  {
    if tokens == [] then "" else Stringified(tokens[..|tokens| - 1], t2s) + t2s[tokens[|tokens| - 1]]
  }

  /** `stringify`: append the string of each token in turn. */
  method Stringify(tokens: seq<int>, t2s: map<int, string>) returns (s: string)
    requires Known(tokens, t2s)
    ensures s == Stringified(tokens, t2s)
  {
    s := "";
    for i := 0 to |tokens|
      invariant s == Stringified(tokens[..i], t2s)
    {
      assert tokens[..i + 1][..i] == tokens[..i];
      s := s + t2s[tokens[i]];
    }
    assert tokens[..|tokens|] == tokens;
  }

  lemma {:induction false} StringifiedCons(t: int, rest: seq<int>, t2s: map<int, string>)
    requires Known([t] + rest, t2s)
    ensures t in t2s && Known(rest, t2s)
    ensures Stringified([t] + rest, t2s) == t2s[t] + Stringified(rest, t2s)
    decreases |rest|
  {
    var tr := [t] + rest;
    assert tr[0] == t;
    assert forall k :: 0 <= k < |rest| ==> rest[k] == tr[k + 1];
    if rest == [] {
      assert Stringified(tr, t2s) == Stringified([], t2s) + t2s[t];
    } else {
      var init, last := rest[..|rest| - 1], rest[|rest| - 1];
      assert tr[..|tr| - 1] == [t] + init;
      assert tr[|tr| - 1] == last;
      assert Known([t] + init, t2s);
      StringifiedCons(t, init, t2s);
      var a, b, c := t2s[t], Stringified(init, t2s), t2s[last];
      assert Stringified(tr, t2s) == Stringified([t] + init, t2s) + c;
      ConcatAssociative(a, b, c);
      assert Stringified(rest, t2s) == b + c;
    }
  }

  lemma {:induction false} StringifiedConcat(a: seq<int>, b: seq<int>, t2s: map<int, string>)
    requires Known(a, t2s) && Known(b, t2s)
    ensures Known(a + b, t2s)
    ensures Stringified(a + b, t2s) == Stringified(a, t2s) + Stringified(b, t2s)
    decreases |b|
  {
    KnownConcat(a, b, t2s);
    if b == [] {
      assert a + b == a;
    } else {
      var init, last := b[..|b| - 1], b[|b| - 1];
      assert Known(init, t2s);
      SplitLast(a, b);
      StringifiedConcat(a, init, t2s);
      var x, y, z := Stringified(a, t2s), Stringified(init, t2s), t2s[last];
      assert Stringified(a + b, t2s) == Stringified(a + init, t2s) + z;
      ConcatAssociative(x, y, z);
      assert Stringified(b, t2s) == y + z;
    }
  }

  /** The greedy tokens all come from the map, and spell out the string again. */
  lemma {:induction false} TokensRoundTrip(s: string, s2t: map<string, int>, t2s: map<int, string>)
    requires Inverse(s2t, t2s)
    requires Tokenizable(s, s2t)
    ensures forall k :: 0 <= k < |Tokens(s, s2t)| ==> Tokens(s, s2t)[k] in s2t.Values
    ensures Known(Tokens(s, s2t), t2s)
    ensures Stringified(Tokens(s, s2t), t2s) == s
    ensures Tokens(s, s2t) == [] <==> s == []
  {
    TokensFromMap(s, s2t, t2s);
    TokensSpell(s, s2t, t2s);
    if s != [] {
      var k := LongestMatch(s, s2t, |s|);
      assert Tokens(s, s2t) == [s2t[s[..k]]] + Tokens(s[k..], s2t);
    }
  }

  /** Each greedy token is the value of some key, so the inverse map knows it. */
  lemma {:induction false} TokensFromMap(s: string, s2t: map<string, int>, t2s: map<int, string>)
    requires Inverse(s2t, t2s)
    requires Tokenizable(s, s2t)
    ensures forall k :: 0 <= k < |Tokens(s, s2t)| ==> Tokens(s, s2t)[k] in s2t.Values
    ensures Known(Tokens(s, s2t), t2s)
    decreases |s|
  {
    if s != [] {
      var k := LongestMatch(s, s2t, |s|);
      var rest := Tokens(s[k..], s2t);
      TokensFromMap(s[k..], s2t, t2s);
      var t := s2t[s[..k]];
      var ts := [t] + rest;
      assert Tokens(s, s2t) == ts;
      forall i | 0 <= i < |ts| ensures ts[i] in s2t.Values && ts[i] in t2s {
        if i > 0 {
          assert ts[i] == rest[i - 1];
        }
      }
    }
  }

  /** The strings of the greedy tokens spell out the string again. */
  lemma {:induction false} TokensSpell(s: string, s2t: map<string, int>, t2s: map<int, string>)
    requires Inverse(s2t, t2s)
    requires Tokenizable(s, s2t)
    ensures Known(Tokens(s, s2t), t2s)
    ensures Stringified(Tokens(s, s2t), t2s) == s
    decreases |s|
  {
    TokensFromMap(s, s2t, t2s);
    if s != [] {
      var k := LongestMatch(s, s2t, |s|);
      var rest := Tokens(s[k..], s2t);
      TokensSpell(s[k..], s2t, t2s);
      var t := s2t[s[..k]];
      assert Tokens(s, s2t) == [t] + rest;
      StringifiedCons(t, rest, t2s);
      assert s == s[..k] + s[k..];
    }
  }

  /** `stringify(tokenify(s)) == s` for every non-empty string that tokenizes. */
  lemma StringifyTokenify(s: string, s2t: map<string, int>, t2s: map<int, string>)
    requires Inverse(s2t, t2s)
    requires Tokenizable(s, s2t) && s != []
    ensures Known(TokenifyResult(s, s2t), t2s)
    ensures Stringified(TokenifyResult(s, s2t), t2s) == s
  {
    TokensRoundTrip(s, s2t, t2s);
  }

  /** The empty string tokenizes to `[START_TOKEN]`. */
  lemma EmptyTokenify(m: map<string, int>)
    ensures Tokenizable("", m) && TokenifyResult("", m) == [START_TOKEN]
  {
  }

  // ---------------------------------------------------------------- load_names

  predicate AllTokenizable(names: seq<string>, m: map<string, int>) {
    forall k :: 0 <= k < |names| ==> Tokenizable(Strip(names[k]), m)
  }

  /** One corpus entry: START_TOKEN, the tokens of the stripped line, END_TOKEN. */
  function Framed(name: string, m: map<string, int>): seq<int>
    requires Tokenizable(Strip(name), m)
  {
    [START_TOKEN] + TokenifyResult(Strip(name), m) + [END_TOKEN]
  }

  /** The corpus: the framed entries of the names, in order. */
  function Corpus(names: seq<string>, m: map<string, int>): seq<int>
    requires AllTokenizable(names, m)
  {
    if names == [] then []
    else Corpus(names[..|names| - 1], m) + Framed(names[|names| - 1], m)
  }

  /** `load_names`: append each stripped line's framed tokens. */
  method LoadNames(names: seq<string>, m: map<string, int>) returns (data: seq<int>)
    requires AllTokenizable(names, m)
    ensures data == Corpus(names, m)
  {
    data := [];
    for i := 0 to |names|
      invariant AllTokenizable(names[..i], m)
      invariant data == Corpus(names[..i], m)
    {
      ghost var prefix := names[..i + 1];
      assert prefix[..i] == names[..i] && prefix[i] == names[i];
      assert AllTokenizable(prefix, m);
      var tokens := Tokenify(Strip(names[i]), m);
      data := data + ([START_TOKEN] + tokens + [END_TOKEN]);
    }
    assert names[..|names|] == names;
  }

  lemma AllTokenizableConcat(a: seq<string>, b: seq<string>, m: map<string, int>)
    requires AllTokenizable(a, m) && AllTokenizable(b, m)
    ensures AllTokenizable(a + b, m)
  {
    assert forall k :: 0 <= k < |a + b| ==> (a + b)[k] == if k < |a| then a[k] else b[k - |a|];
  }

  /** Reading two lists of names one after the other gives the two corpora one after the other. */
  lemma {:induction false} CorpusConcat(a: seq<string>, b: seq<string>, m: map<string, int>)
    requires AllTokenizable(a, m) && AllTokenizable(b, m)
    ensures AllTokenizable(a + b, m)
    ensures Corpus(a + b, m) == Corpus(a, m) + Corpus(b, m)
    decreases |b|
  {
    AllTokenizableConcat(a, b, m);
    if b == [] {
      assert a + b == a;
    } else {
      var init, last := b[..|b| - 1], b[|b| - 1];
      assert AllTokenizable(init, m);
      CorpusConcat(a, init, m);
      var ab := a + b;
      SplitLast(a, b);
      var ca, ci, f := Corpus(a, m), Corpus(init, m), Framed(last, m);
      assert Corpus(ab, m) == Corpus(a + init, m) + f;
      ConcatAssociative(ca, ci, f);
    }
  }

  lemma KnownConcat(a: seq<int>, b: seq<int>, t2s: map<int, string>)
    requires Known(a, t2s) && Known(b, t2s)
    ensures Known(a + b, t2s)
  {
    assert forall k :: 0 <= k < |a + b| ==> (a + b)[k] == if k < |a| then a[k] else b[k - |a|];
  }

  lemma FramedKnown(name: string, s2t: map<string, int>, t2s: map<int, string>)
    requires Tokenizable(Strip(name), s2t) && Inverse(s2t, t2s)
    requires START_TOKEN in t2s && END_TOKEN in t2s
    ensures Known(Framed(name, s2t), t2s)
  {
    TokensRoundTrip(Strip(name), s2t, t2s);
    var ts := TokenifyResult(Strip(name), s2t);
    assert Known(ts, t2s);
    KnownConcat([START_TOKEN], ts, t2s);
    KnownConcat([START_TOKEN] + ts, [END_TOKEN], t2s);
  }

  /** Every corpus token is a sentinel or a value of the map, hence known to its inverse. */
  lemma {:induction false} CorpusKnown(names: seq<string>, s2t: map<string, int>, t2s: map<int, string>)
    requires AllTokenizable(names, s2t) && Inverse(s2t, t2s)
    requires START_TOKEN in t2s && END_TOKEN in t2s
    ensures Known(Corpus(names, s2t), t2s)
  {
    if names != [] {
      var init := names[..|names| - 1];
      assert AllTokenizable(init, s2t);
      CorpusKnown(init, s2t, t2s);
      FramedKnown(names[|names| - 1], s2t, t2s);
      KnownConcat(Corpus(init, s2t), Framed(names[|names| - 1], s2t), t2s);
    }
  }

  // ---------------------------------------------------------------- get_next_token

  /** `len(data[:-depth])`: note `data[:-0]` is empty. */
  function Window(n: nat, depth: nat): (w: nat)
    ensures w + depth <= n || w == 0
  {
    if depth == 0 || n <= depth then 0 else n - depth
  }

  /** `tokens[-j:]`: the last `j` tokens, and the whole list when `j == 0`. */
  function Suffix(tokens: seq<int>, j: nat): seq<int>
    requires j <= |tokens|
  {
    if j == 0 then tokens else tokens[|tokens| - j..]
  }

  /** `data[i:i + j] == tokens[-j:]`: the corpus at `i` repeats the tail the loop compares. */
  predicate Matches(tokens: seq<int>, data: seq<int>, i: nat, j: nat)
    requires i + j <= |data| && j <= |tokens|
  {
    data[i..i + j] == Suffix(tokens, j)
  }

  /** The continuations appended for position `i` by the inner loop over `j < jmax`. */
  function RowChoices(tokens: seq<int>, data: seq<int>, depth: nat, i: nat, jmax: nat): seq<int>
    requires i < Window(|data|, depth) && jmax <= |tokens| + 1
  {
    if jmax == 0 then []
    else
      var j := jmax - 1;
      RowChoices(tokens, data, depth, i, j)
        + (if j <= depth && Matches(tokens, data, i, j) then [data[i + j]] else [])
  }

  /** The continuations appended for the positions `i < imax`. */
  function AllChoices(tokens: seq<int>, data: seq<int>, depth: nat, imax: nat): seq<int>
    requires imax <= Window(|data|, depth)
  {
    if imax == 0 then []
    else AllChoices(tokens, data, depth, imax - 1) + RowChoices(tokens, data, depth, imax - 1, |tokens| + 1)
  }

  /** The candidate list of `get_next_token`: END_TOKEN, then each continuation seen in the corpus. */
  function Choices(tokens: seq<int>, data: seq<int>, depth: nat): seq<int> {
    [END_TOKEN] + AllChoices(tokens, data, depth, Window(|data|, depth))
  }

  /** The candidate collection of `get_next_token`: the outer loop over corpus positions. */
  method Candidates(tokens: seq<int>, data: seq<int>, depth: nat) returns (choices: seq<int>)
    ensures choices == Choices(tokens, data, depth)
  {
    choices := [END_TOKEN];
    var n := Window(|data|, depth);
    for i := 0 to n
      invariant choices == [END_TOKEN] + AllChoices(tokens, data, depth, i)
    {
      ghost var prior := AllChoices(tokens, data, depth, i);
      ghost var row := RowChoices(tokens, data, depth, i, |tokens| + 1);
      choices := ScanPosition(tokens, data, depth, i, choices);
      assert AllChoices(tokens, data, depth, i + 1) == prior + row;
      ConcatAssociative([END_TOKEN], prior, row);
    }
  }

  /** The inner loop of `get_next_token`: append what follows position `i` for each matching tail. */
  method ScanPosition(tokens: seq<int>, data: seq<int>, depth: nat, i: nat, before: seq<int>) returns (choices: seq<int>)
    requires i < Window(|data|, depth)
    ensures choices == before + RowChoices(tokens, data, depth, i, |tokens| + 1)
  {
    choices := before;
    for j := 0 to |tokens| + 1
      invariant choices == before + RowChoices(tokens, data, depth, i, j)
    {
      ghost var row := RowChoices(tokens, data, depth, i, j);
      var added: seq<int> := [];
      if j <= depth {
        if Matches(tokens, data, i, j) {
          added := [data[i + j]];
        }
      }
      RowSnoc(tokens, data, depth, i, j, added);
      ConcatAssociative(before, row, added);
      choices := choices + added;
    }
  }

  /** One step of the inner loop extends the row by what it appends. */
  lemma RowSnoc(tokens: seq<int>, data: seq<int>, depth: nat, i: nat, j: nat, added: seq<int>)
    requires i < Window(|data|, depth) && j <= |tokens|
    requires added == if j <= depth && Matches(tokens, data, i, j) then [data[i + j]] else []
    ensures RowChoices(tokens, data, depth, i, j + 1) == RowChoices(tokens, data, depth, i, j) + added
  {
  }

  lemma {:induction false} RowFromCorpus(tokens: seq<int>, data: seq<int>, depth: nat, i: nat, jmax: nat)
    requires i < Window(|data|, depth) && jmax <= |tokens| + 1
    ensures forall x :: x in RowChoices(tokens, data, depth, i, jmax) ==> x in data
  {
    if jmax > 0 {
      var j := jmax - 1;
      RowFromCorpus(tokens, data, depth, i, j);
      var prior := RowChoices(tokens, data, depth, i, j);
      var added := if j <= depth && Matches(tokens, data, i, j) then [data[i + j]] else [];
      assert RowChoices(tokens, data, depth, i, jmax) == prior + added;
      forall x | x in prior + added
        ensures x in data
      {
        if x !in prior {
          assert x in added;
          assert x == data[i + j];
        }
      }
    }
  }

  lemma {:induction false} AllFromCorpus(tokens: seq<int>, data: seq<int>, depth: nat, imax: nat)
    requires imax <= Window(|data|, depth)
    ensures forall x :: x in AllChoices(tokens, data, depth, imax) ==> x in data
  {
    if imax > 0 {
      AllFromCorpus(tokens, data, depth, imax - 1);
      RowFromCorpus(tokens, data, depth, imax - 1, |tokens| + 1);
      var prior := AllChoices(tokens, data, depth, imax - 1);
      var row := RowChoices(tokens, data, depth, imax - 1, |tokens| + 1);
      assert AllChoices(tokens, data, depth, imax) == prior + row;
      forall x | x in prior + row ensures x in data {
        if x !in prior {
          assert x in row;
        }
      }
    }
  }

  /** The first candidate is END_TOKEN and every other one is a token of the corpus. */
  lemma ChoicesFromCorpus(tokens: seq<int>, data: seq<int>, depth: nat)
    ensures Choices(tokens, data, depth)[0] == END_TOKEN
    ensures forall x :: x in Choices(tokens, data, depth) ==> x == END_TOKEN || x in data
  {
    AllFromCorpus(tokens, data, depth, Window(|data|, depth));
  }

  /** The token `random.choice` picks when it draws index `pick` (taken modulo the number of candidates). */
  function NextToken(tokens: seq<int>, data: seq<int>, depth: nat, pick: nat): (t: int)
    ensures t == END_TOKEN || t in data
  {
    var c := Choices(tokens, data, depth);
    ChoicesFromCorpus(tokens, data, depth);
    assert c[pick % |c|] in c;
    c[pick % |c|]
  }

  /** `get_next_token`: collect the candidates, then choose one. */
  method GetNextToken(tokens: seq<int>, data: seq<int>, depth: nat, pick: nat) returns (t: int)
    ensures t == NextToken(tokens, data, depth, pick)
    ensures t == END_TOKEN || t in data
  {
    var choices := Candidates(tokens, data, depth);
    t := choices[pick % |choices|];
  }

  // ---------------------------------------------------------------- generate_name

  /** The extension loop with its draws: None when the draws run out before END_TOKEN. */
  function Extend(tokens: seq<int>, data: seq<int>, picks: seq<nat>): Option<seq<int>>
    requires |tokens| > 0
    decreases |picks|
  {
    if tokens[|tokens| - 1] == END_TOKEN then Some(tokens)
    else if picks == [] then None
    else Extend(tokens + [NextToken(tokens, data, 3, picks[0])], data, picks[1..])
  }

  /** The loop keeps its start and ends on END_TOKEN. */
  lemma {:induction false} ExtendEnds(tokens: seq<int>, data: seq<int>, picks: seq<nat>)
    requires |tokens| > 0
    requires Extend(tokens, data, picks).Some?
    ensures var ts := Extend(tokens, data, picks).value;
            |tokens| <= |ts| && ts[|ts| - 1] == END_TOKEN && forall i :: 0 <= i < |tokens| ==> ts[i] == tokens[i]
    decreases |picks|
  {
    if tokens[|tokens| - 1] != END_TOKEN {
      var next := tokens + [NextToken(tokens, data, 3, picks[0])];
      ExtendEnds(next, data, picks[1..]);
      assert Extend(tokens, data, picks) == Extend(next, data, picks[1..]);
      forall i | 0 <= i < |tokens|
        ensures next[i] == tokens[i]
      {
      }
    }
  }

  /** Every token the loop adds is END_TOKEN or a token of the corpus. */
  lemma {:induction false} ExtendFromCorpus(tokens: seq<int>, data: seq<int>, picks: seq<nat>)
    requires |tokens| > 0
    requires Extend(tokens, data, picks).Some?
    ensures var ts := Extend(tokens, data, picks).value;
            |tokens| <= |ts| && forall k :: |tokens| <= k < |ts| ==> ts[k] == END_TOKEN || ts[k] in data
    decreases |picks|
  {
    if tokens[|tokens| - 1] != END_TOKEN {
      var t := NextToken(tokens, data, 3, picks[0]);
      var next := tokens + [t];
      ExtendFromCorpus(next, data, picks[1..]);
      ExtendEnds(next, data, picks[1..]);
      var ts := Extend(next, data, picks[1..]).value;
      assert Extend(tokens, data, picks).value == ts;
      forall k | |tokens| <= k < |ts|
        ensures ts[k] == END_TOKEN || ts[k] in data
      {
        if k == |tokens| {
          assert ts[..|next|] == next;
          assert ts[k] == next[k] == t;
        }
      }
    }
  }

  /** The loop keeps its start, ends on END_TOKEN, and only adds END_TOKEN or corpus tokens. */
  lemma ExtendShape(tokens: seq<int>, data: seq<int>, picks: seq<nat>)
    requires |tokens| > 0
    requires Extend(tokens, data, picks).Some?
    ensures var ts := Extend(tokens, data, picks).value;
            && |tokens| <= |ts| && ts[..|tokens|] == tokens && ts[|ts| - 1] == END_TOKEN
            && forall k :: |tokens| <= k < |ts| ==> ts[k] == END_TOKEN || ts[k] in data
  {
    ExtendEnds(tokens, data, picks);
    ExtendFromCorpus(tokens, data, picks);
    var ts := Extend(tokens, data, picks).value;
    assert ts[..|tokens|] == tokens;
  }

  /** `s[1:-1]`: drop the first and the last character. */
  function Inner(s: string): string {
    if |s| < 2 then "" else s[1..|s| - 1]
  }

  predicate NameInputs(tokenLines: seq<string>, nameLines: seq<string>, seed: string) {
    && AllTokenizable(nameLines, StringToToken(tokenLines))
    && Tokenizable(seed, StringToToken(tokenLines))
  }

  lemma ExtendKnown(tokenLines: seq<string>, nameLines: seq<string>, seed: string, picks: seq<nat>)
    requires NameInputs(tokenLines, nameLines, seed)
    requires Extend(TokenifyResult(seed, StringToToken(tokenLines)), Corpus(nameLines, StringToToken(tokenLines)), picks).Some?
    ensures Known(Extend(TokenifyResult(seed, StringToToken(tokenLines)), Corpus(nameLines, StringToToken(tokenLines)), picks).value,
                  TokenToString(tokenLines))
  {
    var s2t, t2s := StringToToken(tokenLines), TokenToString(tokenLines);
    var data := Corpus(nameLines, s2t);
    var start := TokenifyResult(seed, s2t);
    TokenMapsInverse(tokenLines);
    TokensRoundTrip(seed, s2t, t2s);
    CorpusKnown(nameLines, s2t, t2s);
    ExtendShape(start, data, picks);
    var ts := Extend(start, data, picks).value;
    forall k | 0 <= k < |ts| ensures ts[k] in t2s {
      if k < |start| {
        assert ts[k] == start[k];
      } else if ts[k] != END_TOKEN {
        var i :| 0 <= i < |data| && data[i] == ts[k];
      }
    }
  }

  /** The name `generate_name` returns: None when the draws run out before END_TOKEN is drawn. */
  function GeneratedName(tokenLines: seq<string>, nameLines: seq<string>, seed: string, picks: seq<nat>): Option<string>
    requires NameInputs(tokenLines, nameLines, seed)
  {
    var s2t, t2s := StringToToken(tokenLines), TokenToString(tokenLines);
    var start := TokenifyResult(seed, s2t);
    match Extend(start, Corpus(nameLines, s2t), picks)
    case None => None
    case Some(ts) =>
      ExtendKnown(tokenLines, nameLines, seed, picks);
      Some(Title(Inner(Stringified(ts, t2s))))
  }

  /**
   * `generate_name`: tokenize the seed, append drawn tokens until the last is END_TOKEN,
   * stringify, drop the first and last characters and title-case.
   */
  method GenerateName(tokenLines: seq<string>, nameLines: seq<string>, seed: string, picks: seq<nat>)
    returns (name: Option<string>)
    requires NameInputs(tokenLines, nameLines, seed)
    ensures name == GeneratedName(tokenLines, nameLines, seed, picks)
  {
    var s2t, t2s := LoadTokens(tokenLines);
    var data := LoadNames(nameLines, s2t);
    var tokens := Tokenify(seed, s2t);
    ghost var start := tokens;
    var k := 0;
    while tokens[|tokens| - 1] != END_TOKEN
      invariant 0 <= k <= |picks| && |tokens| > 0
      invariant Extend(tokens, data, picks[k..]) == Extend(start, data, picks)
      decreases |picks| - k
    {
      if k == |picks| {
        return None;
      }
      var t := GetNextToken(tokens, data, 3, picks[k]);
      assert picks[k..][1..] == picks[k + 1..];
      tokens := tokens + [t];
      k := k + 1;
    }
    ExtendKnown(tokenLines, nameLines, seed, picks);
    var full := Stringify(tokens, t2s);
    name := Some(Title(Inner(full)));
  }

  lemma SentinelStrings(lines: seq<string>)
    ensures START_TOKEN in TokenToString(lines) && TokenToString(lines)[START_TOKEN] == "<"
    ensures END_TOKEN in TokenToString(lines) && TokenToString(lines)[END_TOKEN] == ">"
  {
    TokenMapsInverse(lines);
  }

  /** Stringifying a START_TOKEN ... END_TOKEN list and dropping the ends leaves the middle's string. */
  lemma InnerOfFramed(mid: seq<int>, t2s: map<int, string>)
    requires Known(mid, t2s)
    requires START_TOKEN in t2s && END_TOKEN in t2s && t2s[START_TOKEN] == "<" && t2s[END_TOKEN] == ">"
    ensures Known([START_TOKEN] + mid + [END_TOKEN], t2s)
    ensures Inner(Stringified([START_TOKEN] + mid + [END_TOKEN], t2s)) == Stringified(mid, t2s)
  {
    StringifiedConcat([START_TOKEN], mid, t2s);
    StringifiedConcat([START_TOKEN] + mid, [END_TOKEN], t2s);
    assert Stringified([START_TOKEN], t2s) == "<" by { assert [START_TOKEN][..0] == []; }
    assert Stringified([END_TOKEN], t2s) == ">" by { assert [END_TOKEN][..0] == []; }
    var full := Stringified([START_TOKEN] + mid + [END_TOKEN], t2s);
    assert full == "<" + Stringified(mid, t2s) + ">";
  }

  /** An extension of `[START_TOKEN]` is START_TOKEN, the drawn tokens, END_TOKEN. */
  lemma ExtendFromStart(data: seq<int>, picks: seq<nat>)
    requires Extend([START_TOKEN], data, picks).Some?
    ensures var ts := Extend([START_TOKEN], data, picks).value;
            |ts| >= 2 && ts == [START_TOKEN] + ts[1..|ts| - 1] + [END_TOKEN]
  {
    ExtendShape([START_TOKEN], data, picks);
    var ts := Extend([START_TOKEN], data, picks).value;
    assert ts[..1] == [START_TOKEN];
    assert ts[0] == START_TOKEN != END_TOKEN == ts[|ts| - 1];
    assert ts == [START_TOKEN] + ts[1..|ts| - 1] + [END_TOKEN];
  }

  /**
   * With an empty seed the generated token list is START_TOKEN, drawn tokens, END_TOKEN, and the
   * name is the title-cased string of the drawn tokens: the two sentinel characters are dropped.
   */
  lemma UnseededNameDropsSentinels(tokenLines: seq<string>, nameLines: seq<string>, picks: seq<nat>)
    requires NameInputs(tokenLines, nameLines, "")
    requires GeneratedName(tokenLines, nameLines, "", picks).Some?
    ensures var ts := Extend([START_TOKEN], Corpus(nameLines, StringToToken(tokenLines)), picks).value;
            && |ts| >= 2 && ts[0] == START_TOKEN && ts[|ts| - 1] == END_TOKEN
            && Known(ts[1..|ts| - 1], TokenToString(tokenLines))
            && GeneratedName(tokenLines, nameLines, "", picks)
               == Some(Title(Stringified(ts[1..|ts| - 1], TokenToString(tokenLines))))
  {
    var s2t, t2s := StringToToken(tokenLines), TokenToString(tokenLines);
    var data := Corpus(nameLines, s2t);
    EmptyTokenify(s2t);
    ExtendFromStart(data, picks);
    ExtendKnown(tokenLines, nameLines, "", picks);
    SentinelStrings(tokenLines);
    var ts := Extend([START_TOKEN], data, picks).value;
    var mid := ts[1..|ts| - 1];
    assert Known(mid, t2s) by {
      forall k | 0 <= k < |mid| ensures mid[k] in t2s { assert mid[k] == ts[k + 1]; }
    }
    InnerOfFramed(mid, t2s);
  }
}
