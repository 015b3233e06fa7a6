/** Filling secrets into the configuration text: one textual replacement per secret, one after the
    other. When is that the same as filling all placeholders at once? */
module Secrets {
  const OPEN := "{plaid-secret{"
  const CLOSE := "}}"

  /** The placeholder of a secret. */
  function Placeholder(name: string): string {
    OPEN + name + CLOSE
  }

  /** Replaces the non-overlapping occurrences of `pattern` from left to right. */
  function Replace(text: string, pattern: string, value: string): string
    requires pattern != ""
    decreases |text|
  {
    if pattern <= text then value + Replace(text[|pattern|..], pattern, value)
    else if text == "" then ""
    else [text[0]] + Replace(text[1..], pattern, value)
  }

  type Secret = (string, string)

  /** Replacing for each secret in turn. */
  function ReplaceAll(text: string, secrets: seq<Secret>): string
    decreases |secrets|
  {
    if secrets == [] then text
    else ReplaceAll(Replace(text, Placeholder(secrets[0].0), secrets[0].1), secrets[1..])
  }

  method ReadAndInterpolate(text: string, secrets: seq<Secret>) returns (config: string)
    ensures config == ReplaceAll(text, secrets)
  {
    config := text;
    for i := 0 to |secrets|
      invariant ReplaceAll(config, secrets[i..]) == ReplaceAll(text, secrets)
    {
      assert secrets[i..][1..] == secrets[i + 1..];
      config := Replace(config, Placeholder(secrets[i].0), secrets[i].1);
    }
    assert secrets[|secrets|..] == [];
  }

  // ---------- Filling all placeholders at once ----------

  /** A configuration as its author sees it. */
  datatype Token = Text(text: string) | Hole(name: string)

  function Show(t: Token): string {
    match t
    case Text(text) => text
    case Hole(name) => Placeholder(name)
  }

  function Render(tokens: seq<Token>): string {
    if tokens == [] then "" else Show(tokens[0]) + Render(tokens[1..])
  }

  function FillToken(t: Token, secrets: map<string, string>): Token {
    if t.Hole? && t.name in secrets then Text(secrets[t.name]) else t
  }

  function Fill(tokens: seq<Token>, secrets: map<string, string>): seq<Token> {
    if tokens == [] then [] else [FillToken(tokens[0], secrets)] + Fill(tokens[1..], secrets)
  }

  /** The secrets as a table; names are distinct there. */
  function Table(secrets: seq<Secret>): map<string, string>
    decreases |secrets|
  {
    if secrets == [] then map[] else Table(secrets[1..])[secrets[0].0 := secrets[0].1]
  }

  // ---------- Conditions ----------

  predicate BraceFree(name: string) {
    '{' !in name && '}' !in name
  }

  /** Neither an occurrence of `pattern` nor the beginning of one that goes on behind `text`. */
  predicate CannotStart(text: string, pattern: string) {
    forall o :: 0 <= o < |text| ==> !(pattern <= text[o..]) && !(text[o..] <= pattern)
  }

  /** A secret whose value is its own placeholder changes nothing. */
  predicate Effective(table: map<string, string>, name: string) {
    name in table && table[name] != Placeholder(name)
  }

  /** The text around the holes starts no placeholder. */
  ghost predicate CleanText(text: string, table: map<string, string>) {
    forall name :: Effective(table, name) ==> CannotStart(text, Placeholder(name))
  }

  ghost predicate CleanToken(t: Token, table: map<string, string>) {
    match t
    case Text(text) => CleanText(text, table)
    case Hole(name) => BraceFree(name)
  }

  ghost predicate CleanTokens(tokens: seq<Token>, table: map<string, string>) {
    forall i :: 0 <= i < |tokens| ==> CleanToken(tokens[i], table)
  }

  /** No value starts the placeholder of another secret. */
  ghost predicate CleanValues(table: map<string, string>) {
    forall name, other :: name in table && Effective(table, other) && name != other ==>
      CannotStart(table[name], Placeholder(other))
  }

  ghost predicate GoodNames(table: map<string, string>) {
    forall name :: name in table ==> BraceFree(name)
  }

  /** The secrets of the table in some order. */
  ghost predicate ListsSecrets(secrets: seq<Secret>, table: map<string, string>) {
    Table(secrets) == table && forall i, j :: 0 <= i < j < |secrets| ==> secrets[i].0 != secrets[j].0
  }

  /** A simple test: no brace that starts a `{p` or stands at the end. */
  predicate Harmless(text: string) {
    forall i :: 0 <= i < |text| && text[i] == '{' ==> i + 1 < |text| && text[i + 1] != 'p'
  }

  // ---------- Passing over text ----------

  lemma PlaceholderShape(name: string)
    ensures var p := Placeholder(name);
      && |p| == 16 + |name| && p[0] == '{' && p[1] == 'p' && p[13] == '{'
      && (forall i :: 1 <= i < 13 ==> p[i] != '}' && p[i] != '{')
      && p[14..14 + |name|] == name && p[14 + |name|] == '}' && p[15 + |name|] == '}'
  {
  }

  lemma HarmlessCannotStart(text: string, name: string)
    requires Harmless(text)
    ensures CannotStart(text, Placeholder(name))
  {
    var p := Placeholder(name);
    PlaceholderShape(name);
    forall o | 0 <= o < |text| ensures !(p <= text[o..]) && !(text[o..] <= p) {
      if text[o] == '{' {
        assert text[o..][1] == text[o + 1] && p[1] == 'p';
      } else {
        assert text[o..][0] == text[o];
      }
    }
  }

  /** Harmless text is clean whatever the secrets are. */
  lemma HarmlessIsClean(text: string, table: map<string, string>)
    requires Harmless(text)
    ensures CleanText(text, table)
  {
    forall name | Effective(table, name) ensures CannotStart(text, Placeholder(name)) {
      HarmlessCannotStart(text, name);
    }
  }

  lemma StepPast(c: char, rest: string, pattern: string, value: string)
    requires pattern != "" && !(pattern <= [c] + rest)
    ensures Replace([c] + rest, pattern, value) == [c] + Replace(rest, pattern, value)
  {
    assert ([c] + rest)[1..] == rest;
  }

  lemma FirstAndTail(text: string, rest: string)
    requires text != ""
    ensures [text[0]] + (text[1..] + rest) == text + rest
  {
  }

  lemma TailCannotStart(text: string, pattern: string)
    requires CannotStart(text, pattern) && text != ""
    ensures CannotStart(text[1..], pattern)
  {
    forall o | 0 <= o < |text[1..]| ensures !(pattern <= text[1..][o..]) && !(text[1..][o..] <= pattern) {
      assert text[1..][o..] == text[o + 1..];
    }
  }

  /** What starts inside `text` lies within it or goes on behind it. */
  lemma StartsInside(text: string, rest: string, pattern: string)
    ensures pattern <= text + rest ==> pattern <= text || text <= pattern
    ensures text + rest <= pattern ==> text <= pattern
  {
    assert (text + rest)[..|text|] == text;
    if |pattern| <= |text| {
      assert (text + rest)[..|pattern|] == text[..|pattern|];
    }
  }

  lemma NotAtStart(text: string, rest: string, pattern: string)
    requires CannotStart(text, pattern) && text != ""
    ensures !(pattern <= text + rest)
  {
    assert text[0..] == text;
    StartsInside(text, rest, pattern);
  }

  /** Text that cannot start the pattern is passed over, whatever follows it. */
  lemma {:induction false} TextIsPassedOver(text: string, rest: string, pattern: string, value: string)
    requires CannotStart(text, pattern) && pattern != ""
    ensures Replace(text + rest, pattern, value) == text + Replace(rest, pattern, value)
    decreases |text|
  {
    if text == "" {
      assert text + rest == rest;
    } else {
      var tail := text[1..];
      NotAtStart(text, rest, pattern);
      FirstAndTail(text, rest);
      StepPast(text[0], tail + rest, pattern, value);
      TailCannotStart(text, pattern);
      TextIsPassedOver(tail, rest, pattern, value);
      FirstAndTail(text, Replace(rest, pattern, value));
    }
  }

  /** Alone it is not changed at all. */
  lemma TextIsUnchanged(text: string, pattern: string, value: string)
    requires CannotStart(text, pattern) && pattern != ""
    ensures Replace(text, pattern, value) == text
  {
    TextIsPassedOver(text, "", pattern, value);
    assert text + "" == text;
  }

  // ---------- Passing over placeholders ----------

  /** The end of a placeholder starts no placeholder, not even at its inner brace. */
  lemma EndCannotStart(name: string, other: string, i: nat)
    requires BraceFree(name) && 1 <= i < |Placeholder(name)|
    ensures !(Placeholder(other) <= Placeholder(name)[i..]) && !(Placeholder(name)[i..] <= Placeholder(other))
  {
    var p, end := Placeholder(other), Placeholder(name)[i..];
    PlaceholderShape(name);
    PlaceholderShape(other);
    assert end[0] == Placeholder(name)[i];
    if i == 13 {
      if |name| <= 12 {
        assert end[1 + |name|] == '}' && p[1 + |name|] != '}';
      } else {
        assert end[13] == name[12] && p[13] == '{';
      }
    } else if 14 <= i < 14 + |name| {
      assert end[0] == name[i - 14];
    }
  }

  lemma SuffixCannotStart(name: string, other: string, i: nat)
    requires BraceFree(name) && 1 <= i <= |Placeholder(name)|
    ensures CannotStart(Placeholder(name)[i..], Placeholder(other))
  {
    var suffix := Placeholder(name)[i..];
    forall o | 0 <= o < |suffix|
      ensures !(Placeholder(other) <= suffix[o..]) && !(suffix[o..] <= Placeholder(other))
    {
      assert suffix[o..] == Placeholder(name)[i + o..];
      EndCannotStart(name, other, i + o);
    }
  }

  /** Different placeholders differ within the length of the shorter one. */
  lemma PlaceholdersDiffer(name: string, other: string)
    requires BraceFree(name) && BraceFree(other) && name != other
    ensures !(Placeholder(name) <= Placeholder(other))
  {
    var p, q := Placeholder(name), Placeholder(other);
    PlaceholderShape(name);
    PlaceholderShape(other);
    if |name| < |other| {
      assert p[14 + |name|] == '}' && q[14 + |name|] == other[|name|];
    } else if |other| < |name| {
      assert p[14 + |other|] == name[|other|] && q[14 + |other|] == '}';
    } else {
      var i :| 0 <= i < |name| && name[i] != other[i];
      assert p[14 + i] == name[i] && q[14 + i] == other[i];
    }
  }

  lemma HoleCannotStart(name: string, other: string)
    requires BraceFree(name) && BraceFree(other) && name != other
    ensures CannotStart(Placeholder(other), Placeholder(name))
  {
    var p := Placeholder(other);
    forall o | 0 <= o < |p| ensures !(Placeholder(name) <= p[o..]) && !(p[o..] <= Placeholder(name)) {
      if o == 0 {
        assert p[0..] == p;
        PlaceholdersDiffer(name, other);
        PlaceholdersDiffer(other, name);
      } else {
        EndCannotStart(other, name, o);
      }
    }
  }

  lemma OtherHoleIsPassedOver(name: string, other: string, rest: string, value: string)
    requires BraceFree(name) && BraceFree(other) && name != other
    ensures Replace(Placeholder(other) + rest, Placeholder(name), value)
         == Placeholder(other) + Replace(rest, Placeholder(name), value)
  {
    HoleCannotStart(name, other);
    TextIsPassedOver(Placeholder(other), rest, Placeholder(name), value);
  }

  lemma OwnHoleIsFilled(name: string, rest: string, value: string)
    ensures Replace(Placeholder(name) + rest, Placeholder(name), value)
         == value + Replace(rest, Placeholder(name), value)
  {
    var all := Placeholder(name) + rest;
    assert all[|Placeholder(name)|..] == rest;
  }

  // ---------- One replacement ----------

  /** One textual replacement fills exactly the holes of one secret. */
  lemma {:induction false} ReplaceFillsOne(tokens: seq<Token>, name: string, value: string)
    requires BraceFree(name) && value != Placeholder(name) && CleanTokens(tokens, map[name := value])
    ensures Replace(Render(tokens), Placeholder(name), value) == Render(Fill(tokens, map[name := value]))
    decreases |tokens|
  {
    if tokens != [] {
      var rest := Render(tokens[1..]);
      ReplaceFillsOne(tokens[1..], name, value);
      assert Fill(tokens, map[name := value])[1..] == Fill(tokens[1..], map[name := value]);
      assert CleanToken(tokens[0], map[name := value]);
      match tokens[0] {
        case Text(text) =>
          assert Effective(map[name := value], name);
          TextIsPassedOver(text, rest, Placeholder(name), value);
        case Hole(other) =>
          if other == name {
            OwnHoleIsFilled(name, rest, value);
          } else {
            OtherHoleIsPassedOver(name, other, rest, value);
          }
      }
    }
  }

  /** Replacing a pattern by itself changes nothing. */
  lemma {:induction false} ReplaceByItself(text: string, pattern: string)
    requires pattern != ""
    ensures Replace(text, pattern, pattern) == text
    decreases |text|
  {
    if pattern <= text {
      ReplaceByItself(text[|pattern|..], pattern);
    } else if text != "" {
      ReplaceByItself(text[1..], pattern);
    }
  }

  // ---------- All replacements ----------

  lemma {:induction false} FillOneThenRest(tokens: seq<Token>, name: string, value: string, rest: map<string, string>)
    requires name !in rest
    ensures Fill(Fill(tokens, map[name := value]), rest) == Fill(tokens, rest[name := value])
    decreases |tokens|
  {
    if tokens != [] {
      var filled := Fill(tokens, map[name := value]);
      assert filled[1..] == Fill(tokens[1..], map[name := value]);
      FillOneThenRest(tokens[1..], name, value, rest);
    }
  }

  /** Filling a hole with its own placeholder does not show. */
  lemma {:induction false} OwnPlaceholderIsNoFill(tokens: seq<Token>, name: string, rest: map<string, string>)
    requires name !in rest
    ensures Render(Fill(tokens, rest[name := Placeholder(name)])) == Render(Fill(tokens, rest))
    decreases |tokens|
  {
    if tokens != [] {
      var with, without := Fill(tokens, rest[name := Placeholder(name)]), Fill(tokens, rest);
      assert with[1..] == Fill(tokens[1..], rest[name := Placeholder(name)]) && without[1..] == Fill(tokens[1..], rest);
      OwnPlaceholderIsNoFill(tokens[1..], name, rest);
    }
  }

  lemma {:induction false} FillKeepsClean(tokens: seq<Token>, name: string, value: string, rest: map<string, string>)
    requires CleanTokens(tokens, rest) && CleanText(value, rest)
    ensures CleanTokens(Fill(tokens, map[name := value]), rest)
    decreases |tokens|
  {
    if tokens != [] {
      assert CleanToken(tokens[0], rest);
      assert forall i :: 0 <= i < |tokens[1..]| ==> tokens[1..][i] == tokens[i + 1];
      FillKeepsClean(tokens[1..], name, value, rest);
      var filled := Fill(tokens, map[name := value]);
      forall i | 0 <= i < |filled| ensures CleanToken(filled[i], rest) {
        if i > 0 {
          assert filled[i] == Fill(tokens[1..], map[name := value])[i - 1];
        }
      }
    }
  }

  lemma {:induction false} TableNames(secrets: seq<Secret>)
    ensures forall n :: n in Table(secrets) <==> exists i :: 0 <= i < |secrets| && secrets[i].0 == n
    decreases |secrets|
  {
    if secrets != [] {
      TableNames(secrets[1..]);
      forall n ensures n in Table(secrets) <==> exists i :: 0 <= i < |secrets| && secrets[i].0 == n {
        if n in Table(secrets[1..]) {
          var i :| 0 <= i < |secrets[1..]| && secrets[1..][i].0 == n;
          assert secrets[i + 1].0 == n;
        }
        if i :| 0 <= i < |secrets| && secrets[i].0 == n {
          if i > 0 {
            assert secrets[1..][i - 1].0 == n;
          }
        }
      }
    }
  }

  /** The first secret is not among the others. */
  lemma FirstAndOthers(secrets: seq<Secret>, table: map<string, string>)
    requires secrets != [] && ListsSecrets(secrets, table)
    ensures ListsSecrets(secrets[1..], Table(secrets[1..]))
    ensures secrets[0].0 !in Table(secrets[1..]) && table == Table(secrets[1..])[secrets[0].0 := secrets[0].1]
  {
    TableNames(secrets[1..]);
  }

  lemma {:induction false} EmptyFill(tokens: seq<Token>)
    ensures Fill(tokens, map[]) == tokens
  {
    if tokens != [] {
      EmptyFill(tokens[1..]);
    }
  }

  /** Fewer secrets, fewer conditions. */
  lemma FewerAreClean(tokens: seq<Token>, table: map<string, string>, rest: map<string, string>)
    requires CleanTokens(tokens, table) && CleanValues(table) && GoodNames(table)
    requires forall n :: n in rest ==> n in table && rest[n] == table[n]
    ensures CleanTokens(tokens, rest) && CleanValues(rest) && GoodNames(rest)
  {
    assert forall n :: Effective(rest, n) ==> Effective(table, n);
    forall i | 0 <= i < |tokens| ensures CleanToken(tokens[i], rest) {
      assert CleanToken(tokens[i], table);
    }
  }

  /** Replacing one secret after the other gives the text in which all holes were filled at once. */
  lemma {:induction false} SequentialIsSimultaneous(
      tokens: seq<Token>, secrets: seq<Secret>, table: map<string, string>)
    requires ListsSecrets(secrets, table) && GoodNames(table) && CleanTokens(tokens, table) && CleanValues(table)
    ensures ReplaceAll(Render(tokens), secrets) == Render(Fill(tokens, table))
    decreases |secrets|
  {
    if secrets == [] {
      EmptyFill(tokens);
    } else {
      var (name, value) := secrets[0];
      var rest := Table(secrets[1..]);
      FirstAndOthers(secrets, table);
      FewerAreClean(tokens, table, rest);
      if value == Placeholder(name) {
        ReplaceByItself(Render(tokens), value);
        SequentialIsSimultaneous(tokens, secrets[1..], rest);
        OwnPlaceholderIsNoFill(tokens, name, rest);
      } else {
        FewerAreClean(tokens, table, map[name := value]);
        ReplaceFillsOne(tokens, name, value);
        FirstValueIsClean(name, value, rest, table);
        FillKeepsClean(tokens, name, value, rest);
        SequentialIsSimultaneous(Fill(tokens, map[name := value]), secrets[1..], rest);
        FillOneThenRest(tokens, name, value, rest);
      }
    }
  }

  lemma FirstValueIsClean(name: string, value: string, rest: map<string, string>, table: map<string, string>)
    requires CleanValues(table) && name !in rest && table == rest[name := value]
    ensures CleanText(value, rest)
  {
    forall other | Effective(rest, other) ensures CannotStart(value, Placeholder(other)) {
      assert Effective(table, other) && table[name] == value;
    }
  }

  /** Hence the order in which the table lists its secrets does not matter. */
  lemma OrderDoesNotMatter(tokens: seq<Token>, secrets: seq<Secret>, secrets': seq<Secret>, table: map<string, string>)
    requires ListsSecrets(secrets, table) && ListsSecrets(secrets', table)
    requires GoodNames(table) && CleanTokens(tokens, table) && CleanValues(table)
    ensures ReplaceAll(Render(tokens), secrets) == ReplaceAll(Render(tokens), secrets')
  {
    SequentialIsSimultaneous(tokens, secrets, table);
    SequentialIsSimultaneous(tokens, secrets', table);
  }

  // ---------- The condition on the values is exact ----------

  ghost predicate AlwaysSimultaneous(table: map<string, string>) {
    forall tokens, secrets :: CleanTokens(tokens, table) && ListsSecrets(secrets, table) ==>
      ReplaceAll(Render(tokens), secrets) == Render(Fill(tokens, table))
  }

  lemma {:induction false} ReplaceLength(text: string, pattern: string, value: string)
    requires pattern != ""
    ensures |value| >= |pattern| ==> |Replace(text, pattern, value)| >= |text|
    ensures |value| <= |pattern| ==> |Replace(text, pattern, value)| <= |text|
    decreases |text|
  {
    if pattern <= text {
      ReplaceLength(text[|pattern|..], pattern, value);
    } else if text != "" {
      ReplaceLength(text[1..], pattern, value);
    }
  }

  /** Replacing an occurring pattern by something else shows. */
  lemma {:induction false} ReplaceShows(text: string, pattern: string, value: string, o: nat)
    requires pattern != "" && value != pattern && o <= |text| && pattern <= text[o..]
    ensures Replace(text, pattern, value) != text
    ensures |value| > |pattern| ==> |Replace(text, pattern, value)| > |text|
    ensures |value| < |pattern| ==> |Replace(text, pattern, value)| < |text|
    decreases |text|
  {
    if pattern <= text {
      ReplaceLength(text[|pattern|..], pattern, value);
      if |value| == |pattern| {
        assert Replace(text, pattern, value)[..|pattern|] == value && text[..|pattern|] == pattern;
      }
    } else {
      assert o > 0 by {
        assert text[0..] == text;
      }
      assert text[1..][o - 1..] == text[o..];
      ReplaceShows(text[1..], pattern, value, o - 1);
      assert Replace(text, pattern, value)[1..] == Replace(text[1..], pattern, value);
    }
  }

  lemma OneMoreSecret(secret: Secret, rest: seq<Secret>, table: map<string, string>)
    requires ListsSecrets(rest, table) && secret.0 !in table
    ensures ListsSecrets([secret] + rest, table[secret.0 := secret.1])
  {
    var secrets := [secret] + rest;
    assert secrets[1..] == rest;
    TableNames(rest);
    forall i, j | 0 <= i < j < |secrets| ensures secrets[i].0 != secrets[j].0 {
      assert secrets[j] == rest[j - 1];
    }
  }

  lemma UntouchedByFirst(text: string, secret: Secret, rest: seq<Secret>)
    requires CannotStart(text, Placeholder(secret.0))
    ensures ReplaceAll(text, [secret] + rest) == ReplaceAll(text, rest)
  {
    TextIsUnchanged(text, Placeholder(secret.0), secret.1);
    assert ([secret] + rest)[1..] == rest;
  }

  lemma OneFewer(others: map<string, string>, name: string)
    requires name in others
    ensures |others - {name}| < |others|
  {
    assert (others - {name}).Keys == others.Keys - {name};
    assert |(others - {name}).Keys| == |others - {name}| && |others.Keys| == |others|;
  }

  lemma MergeOne(table: map<string, string>, others: map<string, string>, name: string)
    requires name in others && others.Keys !! table.Keys
    ensures name !in table + (others - {name})
    ensures (table + (others - {name}))[name := others[name]] == table + others
  {
  }

  /** The other secrets can be listed first; they do not touch text that starts none of them. */
  lemma {:induction false} OthersFirst(
      others: map<string, string>, last: seq<Secret>, table: map<string, string>, text: string)
    returns (secrets: seq<Secret>)
    requires ListsSecrets(last, table) && others.Keys !! table.Keys
    requires forall n :: n in others ==> CannotStart(text, Placeholder(n))
    ensures ListsSecrets(secrets, table + others) && ReplaceAll(text, secrets) == ReplaceAll(text, last)
    decreases |others|
  {
    if others == map[] {
      secrets := last;
      assert table + others == table;
    } else {
      var n :| n in others;
      OneFewer(others, n);
      MergeOne(table, others, n);
      var rest := OthersFirst(others - {n}, last, table, text);
      secrets := AddFirst(n, others[n], rest, last, table + (others - {n}), text);
    }
  }

  lemma AddFirst(
      n: string, value: string, rest: seq<Secret>, last: seq<Secret>, table: map<string, string>, text: string)
    returns (secrets: seq<Secret>)
    requires ListsSecrets(rest, table) && ReplaceAll(text, rest) == ReplaceAll(text, last)
    requires n !in table && CannotStart(text, Placeholder(n))
    ensures ListsSecrets(secrets, table[n := value]) && ReplaceAll(text, secrets) == ReplaceAll(text, last)
  {
    secrets := [(n, value)] + rest;
    OneMoreSecret((n, value), rest, table);
    UntouchedByFirst(text, (n, value), rest);
  }

  /** How a value that starts another placeholder is completed to one. */
  lemma Completion(value: string, other: string) returns (o: nat, i: nat)
    requires !CannotStart(value, Placeholder(other))
    ensures o < |value| && 1 <= i <= |Placeholder(other)|
    ensures Placeholder(other) <= (value + Placeholder(other)[i..])[o..]
  {
    var p := Placeholder(other);
    o :| 0 <= o < |value| && (p <= value[o..] || value[o..] <= p);
    if p <= value[o..] {
      i := |p|;
      assert value + p[i..] == value;
    } else {
      i := |value| - o;
      assert (value + p[i..])[o..] == value[o..] + p[i..] == p;
    }
  }

  lemma ListOfTwo(first: Secret, second: Secret)
    requires first.0 != second.0
    ensures Table([first, second]) == map[first.0 := first.1, second.0 := second.1]
    ensures ListsSecrets([first, second], Table([first, second]))
  {
    assert [first, second][1..] == [second] && [second][1..] == [];
    assert Table([second]) == map[second.0 := second.1];
  }

  /** Filled one after the other, the completed value is taken for a placeholder. */
  lemma CompletedIsReplaced(first: Secret, second: Secret, o: nat, i: nat)
    requires BraceFree(first.0) && BraceFree(second.0) && first.0 != second.0 && second.1 != Placeholder(second.0)
    requires 1 <= i <= |Placeholder(second.0)|
    requires o < |first.1| && Placeholder(second.0) <= (first.1 + Placeholder(second.0)[i..])[o..]
    ensures ReplaceAll(Placeholder(first.0) + Placeholder(second.0)[i..], [first, second])
         != first.1 + Placeholder(second.0)[i..]
  {
    var end := Placeholder(second.0)[i..];
    InOrder(Placeholder(first.0) + end, first, second);
    OwnHoleIsFilled(first.0, end, first.1);
    SuffixCannotStart(second.0, first.0, i);
    TextIsUnchanged(end, Placeholder(first.0), first.1);
    ReplaceShows(first.1 + end, Placeholder(second.0), second.1, o);
  }

  lemma HoleThenText(name: string, end: string, table: map<string, string>)
    requires name in table
    ensures Render([Hole(name), Text(end)]) == Placeholder(name) + end
    ensures Render(Fill([Hole(name), Text(end)], table)) == table[name] + end
  {
    var tokens := [Hole(name), Text(end)];
    assert tokens[1..] == [Text(end)] && [Text(end)][1..] == [];
    assert Fill([Text(end)], table) == [Text(end)];
    RenderOfTwo(Hole(name), Text(end));
    RenderOfTwo(Text(table[name]), Text(end));
    assert Fill(tokens, table) == [Text(table[name]), Text(end)];
  }

  lemma TwoAndOthers(table: map<string, string>, name: string, other: string)
    requires name in table && other in table && name != other
    ensures var two, others := map[name := table[name], other := table[other]], table - {name, other};
      others.Keys !! two.Keys && two + others == table
  {
  }

  lemma HoleThenTextIsClean(name: string, other: string, i: nat, table: map<string, string>)
    requires BraceFree(name) && BraceFree(other) && 1 <= i <= |Placeholder(other)|
    ensures CleanTokens([Hole(name), Text(Placeholder(other)[i..])], table)
  {
    forall n | Effective(table, n) ensures CannotStart(Placeholder(other)[i..], Placeholder(n)) {
      SuffixCannotStart(other, n, i);
    }
  }

  lemma OthersLeaveItAlone(name: string, other: string, i: nat, others: map<string, string>)
    requires BraceFree(name) && BraceFree(other) && 1 <= i <= |Placeholder(other)|
    requires name !in others && GoodNames(others)
    ensures forall n :: n in others ==> CannotStart(Placeholder(name) + Placeholder(other)[i..], Placeholder(n))
  {
    forall n | n in others ensures CannotStart(Placeholder(name) + Placeholder(other)[i..], Placeholder(n)) {
      HoleCannotStart(n, name);
      SuffixCannotStart(other, n, i);
      BothCannotStart(Placeholder(name), Placeholder(other)[i..], Placeholder(n));
    }
  }

  /** The hole of a secret followed by what completes its value to another placeholder: with the two filled
      last, the result is not the simultaneous one. */
  lemma UncleanValueShows(table: map<string, string>, name: string, other: string)
    returns (tokens: seq<Token>, secrets: seq<Secret>)
    requires GoodNames(table) && name in table && Effective(table, other) && name != other
    requires !CannotStart(table[name], Placeholder(other))
    ensures CleanTokens(tokens, table) && ListsSecrets(secrets, table)
    ensures ReplaceAll(Render(tokens), secrets) != Render(Fill(tokens, table))
  {
    var o, i := Completion(table[name], other);
    var end := Placeholder(other)[i..];
    tokens := [Hole(name), Text(end)];
    HoleThenText(name, end, table);
    HoleThenTextIsClean(name, other, i, table);
    var first, second := (name, table[name]), (other, table[other]);
    ListOfTwo(first, second);
    TwoAndOthers(table, name, other);
    OthersLeaveItAlone(name, other, i, table - {name, other});
    secrets := OthersFirst(table - {name, other}, [first, second], Table([first, second]), Placeholder(name) + end);
    CompletedIsReplaced(first, second, o, i);
  }

  lemma RenderOfTwo(first: Token, second: Token)
    ensures Render([first, second]) == Show(first) + Show(second)
  {
    assert [first, second][1..] == [second] && [second][1..] == [];
    assert Render([second]) == Show(second) + "";
  }

  lemma BothCannotStart(first: string, second: string, pattern: string)
    requires CannotStart(first, pattern) && CannotStart(second, pattern)
    ensures CannotStart(first + second, pattern)
  {
    var both := first + second;
    forall o | 0 <= o < |both| ensures !(pattern <= both[o..]) && !(both[o..] <= pattern) {
      if o < |first| {
        assert both[o..] == first[o..] + second;
        StartsInside(first[o..], second, pattern);
      } else {
        assert both[o..] == second[o - |first|..];
      }
    }
  }

  /** Whatever the configuration and the order: replacing one after the other is filling all at once if and
      only if no value starts the placeholder of another secret. */
  lemma SimultaneousIffCleanValues(table: map<string, string>)
    requires GoodNames(table)
    ensures AlwaysSimultaneous(table) <==> CleanValues(table)
  {
    if CleanValues(table) {
      forall tokens, secrets | CleanTokens(tokens, table) && ListsSecrets(secrets, table)
        ensures ReplaceAll(Render(tokens), secrets) == Render(Fill(tokens, table))
      {
        SequentialIsSimultaneous(tokens, secrets, table);
      }
    } else {
      var name, other :| name in table && Effective(table, other) && name != other
        && !CannotStart(table[name], Placeholder(other));
      var tokens, secrets := UncleanValueShows(table, name, other);
    }
  }

  /** A secret whose value is another secret's placeholder makes the order visible. */
  lemma PlaceholderInValueShowsOrder(a: string, b: string, value: string)
    requires BraceFree(a) && BraceFree(b) && a != b && value != Placeholder(b)
    ensures var text := Placeholder(a);
      && ReplaceAll(text, [(a, Placeholder(b)), (b, value)]) == value
      && ReplaceAll(text, [(b, value), (a, Placeholder(b))]) == Placeholder(b)
  {
    var first, second := (a, Placeholder(b)), (b, value);
    InOrder("" + Placeholder(a), first, second);
    InOrder("" + Placeholder(a), second, first);
    assert "" + Placeholder(a) == Placeholder(a);
    assert Placeholder(a) + "" == Placeholder(a) && Placeholder(b) + "" == Placeholder(b);
    OwnHoleIsFilled(a, "", Placeholder(b));
    OwnHoleIsFilled(b, "", value);
    OtherHoleIsPassedOver(b, a, "", value);
    assert Replace("", Placeholder(a), Placeholder(b)) == "" && Replace("", Placeholder(b), value) == "";
    assert value + "" == value;
  }

  lemma InOrder(text: string, first: Secret, second: Secret)
    ensures ReplaceAll(text, [first, second]) ==
      Replace(Replace(text, Placeholder(first.0), first.1), Placeholder(second.0), second.1)
  {
    assert [first, second][1..] == [second] && [second][1..] == [];
    var once := Replace(text, Placeholder(first.0), first.1);
    assert ReplaceAll(once, [second]) == Replace(once, Placeholder(second.0), second.1);
  }
}
