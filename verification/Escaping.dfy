/** Python's global replacement of one character by a string, and chains of such replacements.
    Four escape functions of the program are chains of this kind. A chain acts on each character of
    the text on its own, so it is described by what it does to a one-character text. */
module Escaping {

  /** `text.replace(c, sub)` for a one-character `c`. */
  function Replace(text: string, c: char, sub: string): string {
    if text == [] then [] else (if text[0] == c then sub else [text[0]]) + Replace(text[1..], c, sub)
  }

  datatype Rule = Rule(c: char, sub: string)

  /** `text.replace(c1, by1).replace(c2, by2)...`, in order. */
  function ReplaceAll(text: string, rules: seq<Rule>): string
    decreases |rules|
  {
    if rules == [] then text else ReplaceAll(Replace(text, rules[0].c, rules[0].sub), rules[1..])
  }

  lemma {:induction false} ReplaceConcat(a: string, b: string, c: char, sub: string)
    ensures Replace(a + b, c, sub) == Replace(a, c, sub) + Replace(b, c, sub)
  {
    if a == [] {
      assert a + b == b;
    } else {
      assert (a + b)[0] == a[0] && (a + b)[1..] == a[1..] + b;
      ReplaceConcat(a[1..], b, c, sub);
    }
  }

  /** A chain of global replacements is a homomorphism: it never looks across a character boundary. */
  lemma {:induction false} ReplaceAllConcat(a: string, b: string, rules: seq<Rule>)
    ensures ReplaceAll(a + b, rules) == ReplaceAll(a, rules) + ReplaceAll(b, rules)
    decreases |rules|
  {
    if rules != [] {
      ReplaceConcat(a, b, rules[0].c, rules[0].sub);
      ReplaceAllConcat(Replace(a, rules[0].c, rules[0].sub), Replace(b, rules[0].c, rules[0].sub), rules[1..]);
    }
  }

  lemma {:induction false} ReplaceAllEmpty(rules: seq<Rule>)
    ensures ReplaceAll([], rules) == []
  {
    if rules != [] {
      ReplaceAllEmpty(rules[1..]);
    }
  }

  /** No character has two rules, and no rule acts on what an earlier one wrote. */
  predicate Independent(rules: seq<Rule>) {
    forall i, j :: 0 <= i < j < |rules| ==> rules[i].c != rules[j].c && rules[j].c !in rules[i].sub
  }

  /** The image of one character under a chain whose later rules leave earlier images alone:
      the first rule for the character decides. */
  lemma {:induction false} ReplaceAllOne(x: char, rules: seq<Rule>)
    requires Independent(rules)
    ensures (forall i :: 0 <= i < |rules| ==> rules[i].c != x) ==> ReplaceAll([x], rules) == [x]
    ensures forall i :: 0 <= i < |rules| && rules[i].c == x ==> ReplaceAll([x], rules) == rules[i].sub
  {
    if rules != [] {
      var rest := rules[1..];
      assert forall i, j :: 0 <= i < j < |rest| ==> rest[i] == rules[i + 1] && rest[j] == rules[j + 1];
      assert Replace([x][1..], rules[0].c, rules[0].sub) == [];
      if rules[0].c == x {
        assert Replace([x], x, rules[0].sub) == rules[0].sub + [] == rules[0].sub;
        ReplaceAllUntouched(rules[0].sub, rest);
        forall i | 0 <= i < |rules| && rules[i].c == x
          ensures ReplaceAll([x], rules) == rules[i].sub
        {
          assert i == 0;
        }
      } else {
        assert Replace([x], rules[0].c, rules[0].sub) == [x] + [] == [x];
        ReplaceAllOne(x, rest);
        forall i | 0 <= i < |rules| && rules[i].c == x
          ensures ReplaceAll([x], rules) == rules[i].sub
        {
          assert rest[i - 1] == rules[i];
        }
      }
    }
  }

  lemma {:induction false} ReplaceAbsent(text: string, c: char, sub: string)
    requires c !in text
    ensures Replace(text, c, sub) == text
  {
    if text != [] {
      ReplaceAbsent(text[1..], c, sub);
    }
  }

  lemma {:induction false} ReplaceAllUntouched(text: string, rules: seq<Rule>)
    requires forall i :: 0 <= i < |rules| ==> rules[i].c !in text
    ensures ReplaceAll(text, rules) == text
    decreases |rules|
  {
    if rules != [] {
      ReplaceAbsent(text, rules[0].c, rules[0].sub);
      ReplaceAllUntouched(text, rules[1..]);
    }
  }

  /** The per-character map that a rule list denotes. */
  function Image(x: char, rules: seq<Rule>): string {
    if rules == [] then [x] else if rules[0].c == x then rules[0].sub else Image(x, rules[1..])
  }

  lemma {:induction false} ImageCases(x: char, rules: seq<Rule>)
    ensures (forall i :: 0 <= i < |rules| ==> rules[i].c != x) ==> Image(x, rules) == [x]
    ensures (forall i :: 0 <= i < |rules| ==> rules[i].c != x)
      || exists i :: 0 <= i < |rules| && rules[i].c == x && Image(x, rules) == rules[i].sub
  {
    if rules != [] && rules[0].c != x {
      ImageCases(x, rules[1..]);
      if exists i :: 0 <= i < |rules[1..]| && rules[1..][i].c == x && Image(x, rules[1..]) == rules[1..][i].sub {
        var i :| 0 <= i < |rules[1..]| && rules[1..][i].c == x && Image(x, rules[1..]) == rules[1..][i].sub;
        assert rules[i + 1].c == x && Image(x, rules) == rules[i + 1].sub;
      } else {
        assert forall i :: 0 < i < |rules| ==> rules[i] == rules[1..][i - 1];
      }
    }
  }

  /** Sequential global replacement equals one pass with a per-character map. */
  lemma {:induction false} ReplaceAllIsPerCharacter(text: string, rules: seq<Rule>)
    requires Independent(rules)
    ensures text == [] ==> ReplaceAll(text, rules) == []
    ensures text != [] ==> ReplaceAll(text, rules) == Image(text[0], rules) + ReplaceAll(text[1..], rules)
  {
    ReplaceAllEmpty(rules);
    if text != [] {
      assert text == [text[0]] + text[1..];
      ReplaceAllConcat([text[0]], text[1..], rules);
      ReplaceAllOne(text[0], rules);
      ImageCases(text[0], rules);
    }
  }
}
