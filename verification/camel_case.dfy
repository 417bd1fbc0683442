/**
 `protoCamelCase`: underscores are dropped and the first non-digit after
 them is upper-cased. The source walks the name once with a `capNext` flag
 that a digit or a capitalised character clears; the reference definition
 `Camel` instead says what each character becomes given only whether the
 character before it is an underscore. Upper-casing is ASCII only.
 */
module CamelCase {

  predicate IsDigit(c: char) {
    '0' <= c <= '9'
  }

  /** `c.toUpperCase()` on ASCII: lower-case letters move up, everything else stays. */
  function ToUpper(c: char): (u: char)
    ensures 'a' <= c <= 'z' ==> 'A' <= u <= 'Z' && u as int == c as int - 32
    ensures !('a' <= c <= 'z') ==> u == c
  {
    if 'a' <= c <= 'z' then (c as int - 32) as char else c
  }

  /** What one character contributes, given whether an underscore comes right before it. */
  function OutChar(c: char, afterUnderscore: bool): (o: string)
    ensures |o| == if c == '_' then 0 else 1
  {
    if c == '_' then []
    else if !IsDigit(c) && afterUnderscore then [ToUpper(c)]
    else [c]
  }

  /** The contributions of every character of `s`, the first one preceded by an underscore when `afterUnderscore`. */
  function CamelAfter(s: string, afterUnderscore: bool): string
    decreases |s|
  {
    if s == [] then []
    else OutChar(s[0], afterUnderscore) + CamelAfter(s[1..], s[0] == '_')
  }

  /**
   The reference camel case of a whole name: every `_` goes and nothing
   else does, and a name without `_` is its own camel case.
   */
  function Camel(s: string): (c: string)
    ensures |c| == |s| - Underscores(s)
    ensures '_' !in c
    ensures '_' !in s ==> c == s
  {
    CamelLength(s, false);
    if '_' in s then CamelAfter(s, false)
    else CamelIdentity(s); CamelAfter(s, false)
  }

  /** Whether an underscore precedes whatever follows `s`. */
  function EndsInUnderscore(s: string, afterUnderscore: bool): bool {
    if s == [] then afterUnderscore else s[|s| - 1] == '_'
  }

  /** Number of underscores in `s`. */
  function Underscores(s: string): nat
    decreases |s|
  {
    if s == [] then 0 else (if s[0] == '_' then 1 else 0) + Underscores(s[1..])
  }

  /** Proof helper: string concatenation regrouped. */
  lemma SeqAssoc(a: string, b: string, c: string)
    ensures (a + b) + c == a + (b + c)
  {
  }

  /**
   `protoCamelCase(snakeCase)`, the loop of the source. Its flag is exactly
   "the previous character is an underscore", which is how the loop's output
   agrees with the reference.
   */
  method ProtoCamelCase(s: string) returns (r: string)
    ensures r == Camel(s)
  {
    var capNext := false;
    r := [];
    var i := 0;
    while i < |s|
      invariant 0 <= i <= |s|
      invariant capNext <==> i > 0 && s[i - 1] == '_'
      invariant r + CamelAfter(s[i..], capNext) == Camel(s)
    {
      var c := s[i];
      ghost var r0, out := r, OutChar(c, capNext);
      CamelStep(s, i, capNext);
      SeqAssoc(r, out, CamelAfter(s[i + 1..], c == '_'));
      if c == '_' {
        capNext := true;
      } else if IsDigit(c) {
        r := r + [c];
        capNext := false;
      } else {
        if capNext {
          capNext := false;
          c := ToUpper(c);
        }
        r := r + [c];
      }
      assert r == r0 + out;
      i := i + 1;
    }
    assert r + [] == r;
  }

  lemma CamelStep(s: string, i: nat, afterUnderscore: bool)
    requires i < |s|
    ensures CamelAfter(s[i..], afterUnderscore) == OutChar(s[i], afterUnderscore) + CamelAfter(s[i + 1..], s[i] == '_')
  {
    assert s[i..][0] == s[i] && s[i..][1..] == s[i + 1..];
  }

  /** Two pieces camel-case separately, the second seeing whether the first ends in an underscore. */
  lemma {:induction false} CamelConcat(s: string, t: string, afterUnderscore: bool)
    ensures CamelAfter(s + t, afterUnderscore)
         == CamelAfter(s, afterUnderscore) + CamelAfter(t, EndsInUnderscore(s, afterUnderscore))
    decreases |s|
  {
    if s == [] {
      assert s + t == t;
    } else {
      assert (s + t)[1..] == s[1..] + t;
      CamelConcat(s[1..], t, s[0] == '_');
      assert EndsInUnderscore(s[1..], s[0] == '_') == EndsInUnderscore(s, afterUnderscore);
      SeqAssoc(OutChar(s[0], afterUnderscore), CamelAfter(s[1..], s[0] == '_'),
               CamelAfter(t, EndsInUnderscore(s, afterUnderscore)));
    }
  }

  /** Every underscore is removed, and nothing else: the output is shorter by exactly their number. */
  lemma {:induction false} CamelLength(s: string, afterUnderscore: bool)
    ensures |CamelAfter(s, afterUnderscore)| == |s| - Underscores(s)
    ensures '_' !in CamelAfter(s, afterUnderscore)
    decreases |s|
  {
    if s != [] {
      CamelLength(s[1..], s[0] == '_');
    }
  }

  /** `Underscores` counts the prefix and the rest separately. */
  lemma {:induction false} UnderscoresConcat(s: string, t: string)
    ensures Underscores(s + t) == Underscores(s) + Underscores(t)
    decreases |s|
  {
    if s != [] {
      var st := s + t;
      assert st[0] == s[0] && st[1..] == s[1..] + t;
      UnderscoresConcat(s[1..], t);
    } else {
      assert s + t == t;
    }
  }

  /**
   Position `i` of the input, unless it is an underscore, lands at `i` minus
   the underscores before it, upper-cased exactly when it is not a digit and
   an underscore comes right before it.
   */
  lemma CamelAt(s: string, i: nat)
    requires i < |s| && s[i] != '_'
    ensures Underscores(s[..i]) <= i
    ensures var j := i - Underscores(s[..i]);
            j < |Camel(s)| &&
            Camel(s)[j] == if !IsDigit(s[i]) && i > 0 && s[i - 1] == '_' then ToUpper(s[i]) else s[i]
  {
    var p, q := s[..i], s[i..];
    assert s == p + q;
    CamelConcat(p, q, false);
    CamelLength(p, false);
    CamelLength(q, EndsInUnderscore(p, false));
    var after := EndsInUnderscore(p, false);
    assert after == (i > 0 && s[i - 1] == '_');
    assert CamelAfter(q, after) == OutChar(s[i], after) + CamelAfter(q[1..], s[i] == '_');
  }

  /** A name without underscores is its own camel case. */
  lemma {:induction false} CamelIdentity(s: string)
    requires '_' !in s
    ensures CamelAfter(s, false) == s
    decreases |s|
  {
    if s != [] {
      assert '_' !in s[1..];
      CamelIdentity(s[1..]);
      assert s == [s[0]] + s[1..];
    }
  }

  /** Camel-casing twice changes nothing more, since the first pass leaves no underscore. */
  lemma CamelIdempotent(s: string)
    ensures Camel(Camel(s)) == Camel(s)
  {
    CamelLength(s, false);
    CamelIdentity(Camel(s));
  }

  /** A character outside `A`-`Z` appears in the output only where it appeared in the input. */
  lemma {:induction false} CamelKeepsOut(s: string, afterUnderscore: bool, c: char)
    requires c !in s && !('A' <= c <= 'Z')
    ensures c !in CamelAfter(s, afterUnderscore)
    decreases |s|
  {
    if s != [] {
      assert c !in s[1..];
      CamelKeepsOut(s[1..], s[0] == '_', c);
    }
  }

  /** Two underscore-free words joined by one underscore: the second word's first character is capitalised. */
  lemma SnakePair(a: string, b: string)
    requires '_' !in a && '_' !in b && b != []
    ensures Camel(a + "_" + b) == a + OutChar(b[0], true) + b[1..]
  {
    var u := "_" + b;
    assert a + "_" + b == a + u;
    CamelConcat(a, u, false);
    CamelIdentity(a);
    assert u[0] == '_' && u[1..] == b;
    assert '_' !in b[1..];
    CamelIdentity(b[1..]);
  }

  /** The name from the runtime's path test: `flip_flap` becomes `flipFlap`. */
  lemma FlipFlapExample()
    ensures Camel("flip_flap") == "flipFlap"
  {
    SnakePair("flip", "flap");
    FlipFlapPieces();
  }

  lemma FlipFlapPieces()
    ensures "flip" + "_" + "flap" == "flip_flap"
    ensures "flap"[0] == 'f' && "flap"[1..] == "lap"
    ensures "flip" + OutChar('f', true) + "lap" == "flipFlap"
  {
    assert OutChar('f', true) == "F";
  }

  /** A digit after an underscore cancels the capital. */
  lemma DigitExample()
    ensures Camel("a_1b") == "a1b"
  {
  }

  /** Repeated underscores act as one. */
  lemma RepeatedUnderscoreExample()
    ensures Camel("a__b") == "aB"
  {
  }
}
