/** The command tokenizer of the telnet session, which cuts a C string into
    tokens in place, and the loop that joins tokens back into a command. */
module Tokenizer {
  import opened Addresses

  type Text = seq<Byte>

  const SPACE: Byte := 32

  /** std::isspace in the C locale */
  predicate IsSpace(b: Byte) {
    b == SPACE || 9 <= b <= 13
  }

  // ------------------------------------------------------------ specification

  /** End of the run of non-space characters from i on. */
  function WordEnd(s: Text, i: nat): (e: nat)
    requires i <= |s|
    ensures i <= e <= |s| && (e < |s| ==> IsSpace(s[e]))
    ensures forall k :: i <= k < e ==> !IsSpace(s[k])
    decreases |s| - i
  {
    if i == |s| || IsSpace(s[i]) then i else WordEnd(s, i + 1)
  }

  /** The maximal runs of non-space characters from i on, in order. */
  function WordsFrom(s: Text, i: nat): seq<Text>
    requires i <= |s|
    decreases |s| - i
  {
    if i == |s| then []
    else if IsSpace(s[i]) then WordsFrom(s, i + 1)
    else [s[i..WordEnd(s, i)]] + WordsFrom(s, WordEnd(s, i))
  }

  function Words(s: Text): seq<Text> {
    WordsFrom(s, 0)
  }

  predicate StartsAt(s: Text, i: nat)
    requires i < |s|
  {
    !IsSpace(s[i]) && (i == 0 || IsSpace(s[i - 1]))
  }

  /** The positions from i on at which a word starts. */
  function Starts(s: Text, i: nat): seq<nat>
    requires i <= |s|
    decreases |s| - i
  {
    if i == |s| then [] else (if StartsAt(s, i) then [i] else []) + Starts(s, i + 1)
  }

  /** The text with a NUL behind each word that a space follows. */
  function Marked(s: Text): (m: Text)
    ensures |m| == |s|
  {
    seq(|s|, i requires 0 <= i < |s| => if i > 0 && IsSpace(s[i]) && !IsSpace(s[i - 1]) then 0 else s[i])
  }

  /** The C string at a position: up to the next NUL. */
  function CString(m: Text, p: nat): Text
    decreases |m| - p
  {
    if p >= |m| || m[p] == 0 then [] else [m[p]] + CString(m, p + 1)
  }

  // ------------------------------------------------------------------ methods

  /** TelnetSession::splitCommand on the C string of length n in a buffer. The
      pointers it returns are given as positions. */
  method SplitCommand(command: array<Byte>, n: nat) returns (args: seq<nat>)
    requires n < command.Length && command[n] == 0
    requires forall k :: 0 <= k < n ==> command[k] != 0
    modifies command
    ensures args == Starts(old(command[..n]), 0)
    ensures command[..n] == Marked(old(command[..n]))
    ensures command[n..] == old(command[n..])
  {
    ghost var s := command[..n];
    args := [];
    var whiteSpace := true;
    var i := 0;
    while command[i] != 0
      invariant i <= n
      invariant whiteSpace <==> i == 0 || IsSpace(s[i - 1])
      invariant args + Starts(s, i) == Starts(s, 0)
      invariant command[..i] == Marked(s)[..i] && command[i..] == old(command[i..])
      decreases n - i
    {
      assert command[i] == s[i];
      ghost var before := args;
      if IsSpace(command[i]) {
        if !whiteSpace {
          command[i] := 0;
          whiteSpace := true;
        }
      } else {
        if whiteSpace {
          args := args + [i];
          whiteSpace := false;
        }
      }
      assert before + ([i] + Starts(s, i + 1)) == (before + [i]) + Starts(s, i + 1);
      assert command[..i + 1] == Marked(s)[..i + 1];
      i := i + 1;
    }
  }

  /** The first k tokens, separated by single spaces. */
  function Joined(tokens: seq<Text>, k: nat): Text
    requires k <= |tokens|
  {
    if k == 0 then [] else if k == 1 then tokens[0] else Joined(tokens, k - 1) + [SPACE] + tokens[k - 1]
  }

  /** The loop that makes a command out of the arguments from first on. */
  method JoinArguments(argv: seq<Text>, first: nat) returns (command: Text)
    requires first <= |argv|
    ensures command == Joined(argv[first..], |argv| - first)
  {
    ghost var tokens := argv[first..];
    command := [];
    var i := first;
    while i != |argv|
      invariant first <= i <= |argv|
      invariant command == Joined(tokens, i - first)
      decreases |argv| - i
    {
      if i != first {
        command := command + [SPACE];
      }
      command := command + argv[i];
      i := i + 1;
    }
  }

  /** How many bytes the first k tokens have. */
  function Total(tokens: seq<Text>, k: nat): nat
    requires k <= |tokens|
  {
    if k == 0 then 0 else Total(tokens, k - 1) + |tokens[k - 1]|
  }

  lemma SplitAt(a: Text, b: Text)
    ensures var s := a + [SPACE] + b; s[|a|] == 0x20 && s[|a| + 1..|a| + 1 + |b|] == b
  {}

  lemma SliceOfPrefix(a: Text, b: Text, i: nat, j: nat)
    requires i <= j <= |a|
    ensures (a + b)[i..j] == a[i..j]
  {}

  lemma {:induction false} TotalMonotone(tokens: seq<Text>, i: nat, k: nat)
    requires i < k <= |tokens|
    ensures Total(tokens, i) + |tokens[i]| <= Total(tokens, k)
  {
    if i < k - 1 {
      TotalMonotone(tokens, i, k - 1);
    }
  }

  lemma {:induction false} JoinedLength(tokens: seq<Text>, k: nat)
    requires 0 < k <= |tokens|
    ensures |Joined(tokens, k)| == Total(tokens, k) + k - 1
  {
    if k > 1 {
      JoinedLength(tokens, k - 1);
    } else {
      assert Total(tokens, 0) == 0;
    }
  }

  /** The joined text byte by byte: each token stands behind all bytes of the ones
      before it and as many blanks, with a blank before it. */
  lemma {:induction false} JoinedExact(tokens: seq<Text>, k: nat, i: nat)
    requires i < k <= |tokens|
    ensures var s, p := Joined(tokens, k), Total(tokens, i) + i;
      && |s| == Total(tokens, k) + k - 1 && p + |tokens[i]| <= |s|
      && s[p..p + |tokens[i]|] == tokens[i] && (i > 0 ==> s[p - 1] == 0x20)
    decreases k
  {
    hide Total;
    var p := Total(tokens, i) + i;
    JoinedLength(tokens, k);
    TotalMonotone(tokens, i, k);
    if k == 1 {
      NothingBefore(tokens);
    } else {
      var before, last := Joined(tokens, k - 1), tokens[k - 1];
      assert Joined(tokens, k) == before + ([SPACE] + last);
      if i < k - 1 {
        JoinedExact(tokens, k - 1, i);
        SliceOfPrefix(before, [SPACE] + last, p, p + |tokens[i]|);
      } else {
        JoinedLength(tokens, k - 1);
        SplitAt(before, last);
      }
    }
  }

  lemma NothingBefore(tokens: seq<Text>)
    ensures Total(tokens, 0) == 0
  {}

  // ----------------------------------------------------------------- theorems

  /** From inside a word no start is found before its end. */
  lemma {:induction false} NoStartInside(s: Text, i: nat)
    requires 0 < i <= |s| && !IsSpace(s[i - 1])
    ensures Starts(s, i) == Starts(s, WordEnd(s, i))
    decreases |s| - i
  {
    if i < |s| && !IsSpace(s[i]) {
      NoStartInside(s, i + 1);
    }
  }

  predicate Within(s: Text, starts: seq<nat>) {
    forall k :: 0 <= k < |starts| ==> starts[k] < |s|
  }

  /** The runs that begin at these positions. */
  function WordsAt(s: Text, starts: seq<nat>): (words: seq<Text>)
    requires Within(s, starts)
    ensures |words| == |starts|
  {
    seq(|starts|, k requires 0 <= k < |starts| => s[starts[k]..WordEnd(s, starts[k])])
  }

  /** Every start found is a start. */
  lemma {:induction false} StartsAreStarts(s: Text, i: nat, k: nat)
    requires i <= |s| && k < |Starts(s, i)|
    ensures Starts(s, i)[k] < |s| && StartsAt(s, Starts(s, i)[k])
    decreases |s| - i
  {
    if !StartsAt(s, i) {
      StartsAreStarts(s, i + 1, k);
    } else if k > 0 {
      StartsAreStarts(s, i + 1, k - 1);
    }
  }

  lemma WordsAtCons(s: Text, p: nat, starts: seq<nat>)
    requires p < |s| && Within(s, starts)
    ensures Within(s, [p] + starts) && WordsAt(s, [p] + starts) == [s[p..WordEnd(s, p)]] + WordsAt(s, starts)
  {
    hide WordEnd;
    var all := [p] + starts;
    assert all[0] == p && forall k :: 0 < k < |all| ==> all[k] == starts[k - 1];
  }

  /** The words of a text, from a position that is not inside a word, are the
      words at the starts from there on. */
  lemma {:induction false} WordsAreAtStarts(s: Text, i: nat)
    requires i <= |s| && (i == 0 || i == |s| || IsSpace(s[i - 1]) || IsSpace(s[i]))
    ensures Within(s, Starts(s, i)) && WordsAt(s, Starts(s, i)) == WordsFrom(s, i)
    decreases |s| - i
  {
    if i < |s| {
      if IsSpace(s[i]) {
        WordsAreAtStarts(s, i + 1);
      } else {
        NoStartInside(s, i + 1);
        WordsAreAtStarts(s, WordEnd(s, i));
        WordsAtCons(s, i, Starts(s, WordEnd(s, i)));
      }
    }
  }

  /** The C string that a returned pointer denotes afterwards is its word. */
  lemma {:induction false} CStringIsWord(s: Text, rest: Text, p: nat)
    requires p < |s| && !IsSpace(s[p]) && (forall k :: 0 <= k < |s| ==> s[k] != 0)
    requires rest != [] && rest[0] == 0
    ensures CString(Marked(s) + rest, p) == s[p..WordEnd(s, p)]
    decreases |s| - p
  {
    var m := Marked(s) + rest;
    assert m[p] == s[p];
    if p + 1 < |s| && !IsSpace(s[p + 1]) {
      CStringIsWord(s, rest, p + 1);
    } else {
      assert m[p + 1] == 0;
    }
  }

  lemma StartsStep(s: Text, i: nat, p: nat)
    requires i <= |s|
    ensures i == |s| ==> Starts(s, i) == []
    ensures i < |s| ==> (p in Starts(s, i) <==> (p == i && StartsAt(s, i)) || p in Starts(s, i + 1))
  {
    hide StartsAt;
  }

  /** Exactly the positions at which a word starts are found, */
  lemma {:induction false} StartsExact(s: Text, i: nat, p: nat)
    requires i <= |s|
    ensures p in Starts(s, i) <==> i <= p < |s| && StartsAt(s, p)
    decreases |s| - i
  {
    hide StartsAt, Starts;
    StartsStep(s, i, p);
    if i < |s| {
      StartsExact(s, i + 1, p);
    }
  }

  /** and they are found in order. */
  lemma {:induction false} StartsIncrease(s: Text, i: nat, k: nat)
    requires i <= |s|
    ensures Starts(s, i) != [] ==> i <= Starts(s, i)[0]
    ensures k + 1 < |Starts(s, i)| ==> Starts(s, i)[k] < Starts(s, i)[k + 1]
    decreases |s| - i
  {
    hide StartsAt;
    if i < |s| {
      StartsIncrease(s, i + 1, if StartsAt(s, i) && k > 0 then k - 1 else k);
    }
  }

  /** A byte is changed exactly if a word ends right before it and more text
      follows there, and then it becomes NUL. */
  lemma MarkedExact(s: Text, p: nat)
    requires p < |s| && forall k :: 0 <= k < |s| ==> s[k] != 0
    ensures Marked(s)[p] != s[p] <==> exists i: nat :: i < p && StartsAt(s, i) && WordEnd(s, i) == p
    ensures Marked(s)[p] != s[p] ==> Marked(s)[p] == 0
  {
    if Marked(s)[p] != s[p] {
      var i := WordStart(s, p - 1);
      WordEndIs(s, i, p);
    }
  }

  /** Where the word around a position starts. */
  lemma {:induction false} WordStart(s: Text, p: nat) returns (i: nat)
    requires p < |s| && !IsSpace(s[p])
    ensures i <= p && StartsAt(s, i) && forall k :: i <= k <= p ==> !IsSpace(s[k])
    decreases p
  {
    if p == 0 || IsSpace(s[p - 1]) {
      i := p;
    } else {
      i := WordStart(s, p - 1);
    }
  }

  /** splitCommand as a whole: read as C strings after the call, the returned
      pointers are exactly the words of the command, in order; the bytes of words
      are untouched. */
  lemma SplitYieldsWords(s: Text, rest: Text)
    requires forall k :: 0 <= k < |s| ==> s[k] != 0
    requires rest != [] && rest[0] == 0
    ensures var starts := Starts(s, 0);
      |Words(s)| == |starts| && forall k :: 0 <= k < |starts| ==> CString(Marked(s) + rest, starts[k]) == Words(s)[k]
    ensures forall k :: 0 <= k < |s| && !IsSpace(s[k]) ==> Marked(s)[k] == s[k]
  {
    WordsAreAtStarts(s, 0);
    var starts := Starts(s, 0);
    forall k | 0 <= k < |starts|
      ensures CString(Marked(s) + rest, starts[k]) == WordsAt(s, starts)[k]
    {
      StartsAreStarts(s, 0, k);
      CStringIsWord(s, rest, starts[k]);
    }
  }

  /** A command has no words exactly if it consists of tabs, line feeds, vertical
      tabs, form feeds, carriage returns and blanks. */
  lemma {:induction false} NoWordsExact(s: Text, i: nat)
    requires i <= |s|
    ensures WordsFrom(s, i) == [] <==> forall k :: i <= k < |s| ==> s[k] in {0x09, 0x0A, 0x0B, 0x0C, 0x0D, 0x20}
    decreases |s| - i
  {
    if i < |s| && IsSpace(s[i]) {
      NoWordsExact(s, i + 1);
    }
  }

  predicate IsToken(t: Text) {
    t != [] && forall k :: 0 <= k < |t| ==> !IsSpace(t[k])
  }

  /** A word ends at the end of the text or at a space. */
  lemma {:induction false} WordEndIs(s: Text, i: nat, e: nat)
    requires i <= e <= |s| && (e == |s| || IsSpace(s[e])) && forall k :: i <= k < e ==> !IsSpace(s[k])
    ensures WordEnd(s, i) == e
    decreases e - i
  {
    if i < e {
      WordEndIs(s, i + 1, e);
    }
  }

  lemma WordsOfToken(s: Text, i: nat, t: Text)
    requires IsToken(t) && i <= |s| && s[i..] == t
    ensures WordsFrom(s, i) == [t]
  {
    forall k | i <= k < |s|
      ensures !IsSpace(s[k])
    {
      assert s[k] == t[k - i];
    }
    WordEndIs(s, i, |s|);
    assert !IsSpace(s[i]) && WordsFrom(s, |s|) == [];
    assert s[i..|s|] == t;
  }

  /** A space and a token add one word. */
  lemma {:induction false} WordsAppend(a: Text, t: Text, i: nat)
    requires IsToken(t) && i <= |a|
    ensures WordsFrom(a + [SPACE] + t, i) == WordsFrom(a, i) + [t]
    decreases |a| - i
  {
    var s := a + [SPACE] + t;
    if i == |a| {
      assert s[i + 1..] == t;
      WordsOfToken(s, i + 1, t);
    } else if IsSpace(a[i]) {
      WordsAppend(a, t, i + 1);
    } else {
      var e := WordEnd(a, i);
      WordEndIs(s, i, e);
      WordsAppend(a, t, e);
      assert s[i..e] == a[i..e];
    }
  }

  lemma {:induction false} WordsOfJoined(tokens: seq<Text>, k: nat)
    requires k <= |tokens| && forall i :: 0 <= i < |tokens| ==> IsToken(tokens[i])
    ensures Words(Joined(tokens, k)) == tokens[..k]
  {
    if k == 1 {
      WordsOfToken(tokens[0], 0, tokens[0]);
    } else if k > 1 {
      WordsOfJoined(tokens, k - 1);
      WordsAppend(Joined(tokens, k - 1), tokens[k - 1], 0);
    }
  }

  lemma {:induction false} WordsAreTokens(s: Text, i: nat, w: Text)
    requires i <= |s| && w in WordsFrom(s, i)
    ensures IsToken(w)
    decreases |s| - i
  {
    if IsSpace(s[i]) {
      WordsAreTokens(s, i + 1, w);
    } else if w in WordsFrom(s, WordEnd(s, i)) {
      WordsAreTokens(s, WordEnd(s, i), w);
    }
  }

  /** Splitting undoes joining exactly for lists of non-empty tokens without
      spaces. */
  lemma SplitJoinExact(tokens: seq<Text>)
    ensures Words(Joined(tokens, |tokens|)) == tokens <==> forall i :: 0 <= i < |tokens| ==> IsToken(tokens[i])
  {
    var s := Joined(tokens, |tokens|);
    if forall i :: 0 <= i < |tokens| ==> IsToken(tokens[i]) {
      WordsOfJoined(tokens, |tokens|);
    } else if Words(s) == tokens {
      forall i | 0 <= i < |tokens|
        ensures IsToken(tokens[i])
      {
        assert tokens[i] in Words(s);
        WordsAreTokens(s, 0, tokens[i]);
      }
    }
  }
}
