/** What the string operations compute, with the characters written out. */
module TextLaws {
  import opened Text

  /** A blank: the space, or one of tab, line feed, vertical tab, form feed and carriage return. */
  predicate Blank(c: char) { c as int == 32 || 9 <= c as int <= 13 }

  predicate AllBlank(s: string) { forall i :: 0 <= i < |s| ==> Blank(s[i]) }

  predicate Word(s: string) { s != "" && forall i :: 0 <= i < |s| ==> !Blank(s[i]) }

  /** The words with a separator before, between and behind them. */
  function Joined(pads: seq<string>, words: seq<string>): string
    requires |pads| == |words| + 1
  {
    if words == [] then pads[0] else pads[0] + words[0] + Joined(pads[1..], words[1..])
  }

  /** Separators are blank; only the first and the last may be empty. */
  ghost predicate Separates(pads: seq<string>, words: seq<string>) {
    && |pads| == |words| + 1
    && (forall i :: 0 <= i < |pads| ==> AllBlank(pads[i]))
    && (forall i :: 0 < i < |pads| - 1 ==> pads[i] != "")
    && (forall i :: 0 <= i < |words| ==> Word(words[i]))
  }

  lemma {:induction false} BlanksSkipped(pad: string, rest: string)
    requires AllBlank(pad)
    ensures Fields(pad + rest) == Fields(rest)
  {
    if pad == "" {
      assert pad + rest == rest;
    } else {
      assert Blank(pad[0]) && (pad + rest)[1..] == pad[1..] + rest;
      BlanksSkipped(pad[1..], rest);
    }
  }

  lemma {:induction false} WordCollected(w: string, rest: string, word: string)
    requires forall i :: 0 <= i < |w| ==> !Blank(w[i])
    ensures FieldsFrom(w + rest, word) == FieldsFrom(rest, word + w)
    decreases |w|
  {
    if w == "" {
      assert w + rest == rest && word + w == word;
    } else {
      assert !Blank(w[0]) && (w + rest)[1..] == w[1..] + rest;
      WordCollected(w[1..], rest, word + [w[0]]);
      assert word + [w[0]] + w[1..] == word + w;
    }
  }

  lemma {:induction false} WordEnds(rest: string, word: string)
    requires word != "" && (rest == "" || Blank(rest[0]))
    ensures FieldsFrom(rest, word) == [word] + Fields(rest)
  {
  }

  /** Joining words and splitting again gives the words back. */
  lemma {:induction false} FieldsOfJoined(pads: seq<string>, words: seq<string>)
    requires Separates(pads, words)
    ensures Fields(Joined(pads, words)) == words
    decreases |words|
  {
    if words == [] {
      BlanksSkipped(pads[0], "");
      assert pads[0] + "" == pads[0];
    } else {
      var w, rest := words[0], Joined(pads[1..], words[1..]);
      FieldsOfJoined(pads[1..], words[1..]);
      assert pads[0] + w + rest == pads[0] + (w + rest);
      BlanksSkipped(pads[0], w + rest);
      assert Word(w);
      WordCollected(w, rest, "");
      assert "" + w == w && AllBlank(pads[1]);
      assert rest == "" || Blank(rest[0]);
      WordEnds(rest, w);
    }
  }

  /** Whatever the string, its fields are words, and it is those words with separators around them. */
  lemma {:induction false} FieldsSplit(s: string) returns (pads: seq<string>)
    ensures Separates(pads, Fields(s)) && Joined(pads, Fields(s)) == s
  {
    pads := FieldsSplitFrom(s, "");
  }

  lemma {:induction false} FieldsSplitFrom(s: string, word: string) returns (pads: seq<string>)
    requires forall i :: 0 <= i < |word| ==> !Blank(word[i])
    ensures Separates(pads, FieldsFrom(s, word)) && Joined(pads, FieldsFrom(s, word)) == word + s
    decreases |s|
  {
    if s == "" {
      pads := if word == "" then [""] else ["", ""];
    } else if Blank(s[0]) {
      var rest := FieldsSplitFrom(s[1..], "");
      pads := BlankBefore(s, word, rest);
    } else {
      pads := FieldsSplitFrom(s[1..], word + [s[0]]);
      assert word + [s[0]] + s[1..] == word + s;
    }
  }

  /** One blank more in front of the separators of the rest. */
  lemma {:induction false} BlankBefore(s: string, word: string, rest: seq<string>) returns (pads: seq<string>)
    requires s != "" && Blank(s[0]) && (word == "" || Word(word))
    requires Separates(rest, Fields(s[1..])) && Joined(rest, Fields(s[1..])) == s[1..]
    ensures Separates(pads, FieldsFrom(s, word)) && Joined(pads, FieldsFrom(s, word)) == word + s
  {
    var fs := Fields(s[1..]);
    var first := [[s[0]] + rest[0]] + rest[1..];
    assert first[1..] == rest[1..] && Joined(first, fs) == s;
    assert Separates(first, fs) by {
      assert AllBlank(rest[0]);
    }
    if word == "" {
      pads := first;
      assert FieldsFrom(s, word) == [] + fs == fs;
    } else {
      pads := [""] + first;
      assert pads[1..] == first && ([word] + fs)[1..] == fs;
      assert Joined(pads, [word] + fs) == "" + word + s == word + s;
    }
  }

  /** `strings.ToLower` on ASCII: no capital letter is left, and each character is the one it was or
      the small letter, 32 places on, of the capital it was. */
  lemma LowerMeaning(s: string)
    ensures |Lower(s)| == |s|
    ensures forall i :: 0 <= i < |s| ==>
              !(65 <= Lower(s)[i] as int <= 90)
              && (if 65 <= s[i] as int <= 90 then Lower(s)[i] as int == s[i] as int + 32 else Lower(s)[i] == s[i])
  {
  }

  ghost predicate TrimsTo(s: string, t: string, before: string, behind: string) {
    && AllBlank(before) && AllBlank(behind) && s == before + t + behind
    && (t != "" ==> !Blank(t[0]) && !Blank(t[|t| - 1]))
  }

  lemma {:induction false} TrimSteps(s: string)
    ensures Trim(s) == if s != "" && Blank(s[0]) then Trim(s[1..])
                       else if s != "" && Blank(s[|s| - 1]) then Trim(s[..|s| - 1])
                       else s
  {
  }

  lemma {:induction false} BlankInFront(s: string, t: string, before: string, behind: string)
    requires s != "" && Blank(s[0]) && TrimsTo(s[1..], t, before, behind)
    ensures TrimsTo(s, t, [s[0]] + before, behind)
  {
    assert s == [s[0]] + s[1..];
    assert [s[0]] + (before + t + behind) == [s[0]] + before + t + behind;
  }

  lemma {:induction false} BlankBehind(s: string, t: string, before: string, behind: string)
    requires s != "" && Blank(s[|s| - 1]) && TrimsTo(s[..|s| - 1], t, before, behind)
    ensures TrimsTo(s, t, before, behind + [s[|s| - 1]])
  {
    assert s == s[..|s| - 1] + [s[|s| - 1]];
    assert before + t + behind + [s[|s| - 1]] == before + t + (behind + [s[|s| - 1]]);
  }

  /** `strings.TrimSpace` takes blanks off both ends, and all of them. */
  lemma {:induction false} TrimMeaning(s: string) returns (before: string, behind: string)
    ensures AllBlank(before) && AllBlank(behind) && s == before + Trim(s) + behind
    ensures Trim(s) != "" ==> !Blank(Trim(s)[0]) && !Blank(Trim(s)[|Trim(s)| - 1])
  {
    before, behind := TrimParts(s);
  }

  lemma {:induction false} TrimParts(s: string) returns (before: string, behind: string)
    ensures TrimsTo(s, Trim(s), before, behind)
    decreases |s|
  {
    TrimSteps(s);
    if s != "" && Blank(s[0]) {
      before, behind := TrimParts(s[1..]);
      BlankInFront(s, Trim(s), before, behind);
      before := [s[0]] + before;
    } else if s != "" && Blank(s[|s| - 1]) {
      before, behind := TrimParts(s[..|s| - 1]);
      BlankBehind(s, Trim(s), before, behind);
      behind := behind + [s[|s| - 1]];
    } else {
      before, behind := "", "";
      assert s == "" + s + "";
    }
  }

  /** The text is `small`, in small letters or capitals. */
  predicate Spells(s: string, small: string) {
    && |s| == |small|
    && forall i :: 0 <= i < |s| ==>
         s[i] == small[i] || (65 <= s[i] as int <= 90 && s[i] as int + 32 == small[i] as int)
  }

  predicate NoCapitals(s: string) { forall i :: 0 <= i < |s| ==> !(65 <= s[i] as int <= 90) }

  lemma {:induction false} LowerSpells(s: string, small: string)
    requires NoCapitals(small)
    ensures Lower(s) == small <==> Spells(s, small)
  {
    if Spells(s, small) {
      assert forall i :: 0 <= i < |s| ==> Lower(s)[i] == small[i];
    }
    if Lower(s) == small {
      assert forall i :: 0 <= i < |s| ==> Lower(s)[i] == small[i];
    }
  }
}
