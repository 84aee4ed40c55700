/** Which proposal IDs lead to the same tool action: the words that sanitising keeps. */
module ProposalIds {
  import opened Text
  import opened SessionModel

  predicate IdChar(c: char) { 'a' <= c <= 'z' || '0' <= c <= '9' }

  predicate Word(w: string) { w != "" && forall i :: 0 <= i < |w| ==> IdChar(w[i]) }

  predicate AllWords(words: seq<string>) { forall i :: 0 <= i < |words| ==> Word(words[i]) }

  /** The longest stretches of letters and digits, in order. */
  function Words(s: string): (words: seq<string>)
    ensures AllWords(words)
    ensures s != "" && IdChar(s[0]) ==> words != []
  {
    if s == "" then []
    else
      var rest := Words(s[1..]);
      if !IdChar(s[0]) then rest
      else if |s| > 1 && IdChar(s[1]) then [[s[0]] + rest[0]] + rest[1..]
      else [[s[0]]] + rest
  }

  function Joined(words: seq<string>): string {
    if words == [] then "" else if |words| == 1 then words[0] else words[0] + "-" + Joined(words[1..])
  }

  /** The words of an ID; one without any stands for the word `unknown`. */
  function NameWords(id: string): seq<string> {
    var words := Words(Lower(Trim(id)));
    if words == [] then ["unknown"] else words
  }

  // ---------- dashing is joining ----------

  lemma {:induction false} NoWords(s: string)
    ensures Words(s) == [] <==> forall i :: 0 <= i < |s| ==> !IdChar(s[i])
  {
    if s != "" {
      NoWords(s[1..]);
      assert forall i :: 0 < i < |s| ==> s[i] == s[1..][i - 1];
    }
  }

  function Lead(s: string): string { if s != "" && !IdChar(s[0]) then "-" else "" }

  function Tail(s: string): string { if Words(s) != [] && !IdChar(s[|s| - 1]) then "-" else "" }

  lemma GrowFirst(c: char, rest: seq<string>)
    requires rest != []
    ensures Joined([[c] + rest[0]] + rest[1..]) == [c] + Joined(rest)
  {
    var words := [[c] + rest[0]] + rest[1..];
    assert words[1..] == rest[1..] && words[0] == [c] + rest[0];
    if |rest| > 1 { assert ([c] + rest[0]) + "-" + Joined(rest[1..]) == [c] + (rest[0] + "-" + Joined(rest[1..])); }
  }

  lemma AddFirst(c: char, rest: seq<string>)
    ensures Joined([[c]] + rest) == if rest == [] then [c] else [c] + "-" + Joined(rest)
  {
    assert ([[c]] + rest)[1..] == rest;
  }

  lemma WordsOf(c: char, t: string)
    requires IdChar(c)
    ensures Words([c] + t)
      == if t != "" && IdChar(t[0]) then [[c] + Words(t)[0]] + Words(t)[1..] else [[c]] + Words(t)
  {
    assert ([c] + t)[1..] == t;
    assert |[c] + t| > 1 <==> t != "";
    assert t != "" ==> ([c] + t)[1] == t[0];
  }

  lemma TailOf(c: char, t: string)
    requires IdChar(c)
    ensures Tail([c] + t) == if Words(t) != [] then Tail(t) else Lead(t)
  {
    TailOfWord([c] + t);
    if t != "" {
      assert ([c] + t)[|t|] == t[|t| - 1];
      TailOfText(t);
    }
  }

  lemma TailOfWord(s: string)
    requires s != "" && IdChar(s[0])
    ensures Tail(s) == if IdChar(s[|s| - 1]) then "" else "-"
  {
  }

  lemma TailOfText(t: string)
    requires t != ""
    ensures (if Words(t) != [] then Tail(t) else Lead(t)) == if IdChar(t[|t| - 1]) then "" else "-"
  {
    EndsWithoutWords(t);
  }

  lemma EndsWithoutWords(t: string)
    requires t != ""
    ensures Words(t) == [] ==> Lead(t) == "-" && !IdChar(t[|t| - 1])
  {
    NoWords(t);
  }

  /** A letter before a text joins its first word. */
  lemma LetterJoins(c: char, t: string)
    requires IdChar(c) && t != "" && IdChar(t[0])
    ensures Joined(Words([c] + t)) == [c] + (Lead(t) + Joined(Words(t)))
  {
    WordsOf(c, t);
    GrowFirst(c, Words(t));
    assert "" + Joined(Words(t)) == Joined(Words(t));
  }

  /** Or it is a word of its own. */
  lemma LetterStands(c: char, t: string)
    requires IdChar(c) && (t == "" || !IdChar(t[0]))
    ensures Joined(Words([c] + t)) == [c] + (if Words(t) != [] then Lead(t) + Joined(Words(t)) else "")
  {
    WordsOf(c, t);
    AddFirst(c, Words(t));
    if Words(t) != [] { Dashes(c, Joined(Words(t))); }
  }

  lemma Dashes(c: char, s: string)
    ensures [c] + "-" + s == [c] + ("-" + s)
  {
  }

  lemma FirstLetter(c: char, t: string)
    requires IdChar(c)
    ensures Joined(Words([c] + t)) == [c] + (if Words(t) != [] then Lead(t) + Joined(Words(t)) else "")
    ensures Tail([c] + t) == if Words(t) != [] then Tail(t) else Lead(t)
  {
    TailOf(c, t);
    if t != "" && IdChar(t[0]) { LetterJoins(c, t); } else { LetterStands(c, t); }
  }

  lemma {:induction false} DashedIsJoined(s: string)
    ensures Dashed(s, true) == Joined(Words(s)) + Tail(s)
    ensures Dashed(s, false) == Lead(s) + (Joined(Words(s)) + Tail(s))
  {
    if s != "" {
      var c, t := s[0], s[1..];
      DashedIsJoined(t);
      assert s == [c] + t;
      if IdChar(c) {
        FirstLetter(c, t);
        Regroup(c, Lead(t), Joined(Words(t)), Tail(t));
      } else {
        NotALetter(c, t);
      }
    }
  }

  lemma NotALetter(c: char, t: string)
    requires !IdChar(c)
    ensures Words([c] + t) == Words(t) && Tail([c] + t) == Tail(t)
  {
    assert ([c] + t)[1..] == t;
  }

  lemma Regroup(c: char, lead: string, joined: string, tail: string)
    ensures [c] + (lead + (joined + tail)) == ([c] + (lead + joined)) + tail
    ensures [c] + (lead + ("" + "")) == [c] + lead
  {
  }

  lemma {:induction false} JoinedEnds(words: seq<string>)
    requires AllWords(words) && words != []
    ensures var text := Joined(words); text != "" && IdChar(text[0]) && IdChar(text[|text| - 1])
  {
    if |words| > 1 { JoinedEnds(words[1..]); }
    assert Word(words[0]);
  }

  lemma TrimmedMiddle(lead: string, middle: string, tail: string)
    requires (lead == "" || lead == "-") && (tail == "" || tail == "-")
    requires middle != "" && IdChar(middle[0]) && IdChar(middle[|middle| - 1])
    ensures TrimDashes(lead + (middle + tail)) == middle
  {
    var right := middle + tail;
    if lead == "-" { assert (lead + right)[1..] == right; } else { assert lead + right == right; }
    if tail == "-" { assert right[..|right| - 1] == middle; } else { assert right == middle; }
    assert TrimDashes(middle) == middle;
    assert TrimDashes(right) == middle;
  }

  /** A sanitised ID is its words with single dashes between them. */
  lemma SanitizedIsJoined(id: string)
    ensures SanitizeIdFragment(id) == Joined(NameWords(id)) && AllWords(NameWords(id)) && NameWords(id) != []
  {
    FragmentIsJoined(Lower(Trim(id)));
    UnknownIsAWord();
  }

  lemma FragmentIsJoined(s: string)
    ensures TrimDashes(Dashed(s, false)) == Joined(Words(s))
    ensures Words(s) == [] <==> Joined(Words(s)) == ""
  {
    DashedIsJoined(s);
    TrimmedJoin(Lead(s), Words(s), Tail(s));
  }

  lemma UnknownIsAWord()
    ensures AllWords(["unknown"]) && Joined(["unknown"]) == "unknown"
  {
  }

  lemma TrimmedJoin(lead: string, words: seq<string>, tail: string)
    requires (lead == "" || lead == "-") && (tail == "" || tail == "-") && AllWords(words)
    requires words == [] ==> tail == ""
    ensures TrimDashes(lead + (Joined(words) + tail)) == Joined(words)
    ensures words != [] ==> Joined(words) != ""
  {
    if words == [] {
      assert lead + (Joined(words) + tail) == lead;
      assert TrimDashes("-") == TrimDashes("") == "";
    } else {
      JoinedEnds(words);
      TrimmedMiddle(lead, Joined(words), tail);
    }
  }

  // ---------- joining keeps the words ----------

  lemma {:induction false} JoinedOnce(a: seq<string>, b: seq<string>)
    requires AllWords(a) && AllWords(b) && a != [] && b != []
    requires Joined(a) == Joined(b)
    ensures a == b
  {
    FirstWordLength(a, b);
    FirstWordLength(b, a);
    assert a[0] == Joined(a)[..|a[0]|] && b[0] == Joined(b)[..|b[0]|];
    JoinedRest(a);
    JoinedRest(b);
    if |a| > 1 { JoinedOnce(a[1..], b[1..]); }
    assert a == [a[0]] + a[1..] && b == [b[0]] + b[1..];
  }

  lemma JoinedRest(a: seq<string>)
    requires a != []
    ensures a[0] <= Joined(a)
    ensures if |a| == 1 then |Joined(a)| == |a[0]|
            else |Joined(a)| > |a[0]| && Joined(a)[|a[0]|] == '-' && Joined(a)[|a[0]| + 1..] == Joined(a[1..])
  {
  }

  lemma FirstWordLength(a: seq<string>, b: seq<string>)
    requires AllWords(a) && AllWords(b) && a != [] && b != [] && Joined(a) == Joined(b)
    ensures |a[0]| >= |b[0]|
  {
    JoinedRest(a);
    JoinedRest(b);
    assert Word(b[0]);
    var at := if |a[0]| < |b[0]| then |a[0]| else 0;
    assert IdChar(b[0][at]) && Joined(b)[at] == b[0][at];
  }

  /** Two proposals of a session lead to the same tool action exactly when their
      IDs have the same words, whatever their case and what stands between. */
  lemma SharedActionExactly(session: string, p: string, q: string)
    ensures ProposalActionId(session, p) == ProposalActionId(session, q) <==> NameWords(p) == NameWords(q)
  {
    var stem := session + "-tool-proposal-";
    assert ProposalActionId(session, p)[|stem|..] == SanitizeIdFragment(p);
    assert ProposalActionId(session, q)[|stem|..] == SanitizeIdFragment(q);
    SanitizedIsJoined(p);
    SanitizedIsJoined(q);
    if Joined(NameWords(p)) == Joined(NameWords(q)) { JoinedOnce(NameWords(p), NameWords(q)); }
  }
}
