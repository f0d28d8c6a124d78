/**
 * `formatCategoryName`, written three times with the same body in the list container, the
 * detail container and the list component: split on " ", upper-case the first character of
 * every piece, join with " ". Case mapping is ASCII only.
 */
module CategoryName {

  /** ASCII upper-casing: 'a'..'z' become 'A'..'Z', every other character is kept. */
  function Upper(c: char): char {
    if 'a' <= c <= 'z' then (c as int - 32) as char else c
  }

  /** A word with its first character upper-cased and the rest kept; the empty word stays empty. */
  function Capitalize(word: string): string {
    if word == "" then "" else [Upper(word[0])] + word[1..]
  }

  /** Splitting on " ": the space-free pieces between single spaces, empty pieces included. */
  function Split(s: string): (words: seq<string>)
    ensures |words| >= 1
    ensures forall k :: 0 <= k < |words| ==> ' ' !in words[k]
  {
    if s == "" then [""]
    else
      var rest := Split(s[1..]);
      if s[0] == ' ' then [""] + rest
      else [[s[0]] + rest[0]] + rest[1..]
  }

  /** Joining with " " between consecutive words. */
  function Join(words: seq<string>): string {
    if |words| == 0 then ""
    else if |words| == 1 then words[0]
    else words[0] + " " + Join(words[1..])
  }

  /** Capitalizes every word. */
  function CapitalizeAll(words: seq<string>): (r: seq<string>)
    ensures |r| == |words|
    ensures forall k :: 0 <= k < |words| ==> r[k] == Capitalize(words[k])
  {
    seq(|words|, k requires 0 <= k < |words| => Capitalize(words[k]))
  }

  /**
   * Reference definition, one character at a time: a character is upper-cased exactly when it
   * follows a space (`prev` is the character before `s`; a string starts as if after a space).
   */
  function CapitalizedAfter(s: string, prev: char): string {
    if s == "" then "" else [if prev == ' ' then Upper(s[0]) else s[0]] + CapitalizedAfter(s[1..], s[0])
  }

  /**
   * The formatter. Its result has the length of its input, and a character changes only when it
   * starts a word (it is first, or follows a space), and then only by ASCII upper-casing.
   */
  function Format(category: string): (r: string)
    ensures |r| == |category|
    ensures forall i :: 0 <= i < |category| ==>
      r[i] == if i == 0 || category[i - 1] == ' ' then Upper(category[i]) else category[i]
  {
    FormatIsCapitalizedAfter(category);
    CapitalizedAfterAt(category, ' ');
    Join(CapitalizeAll(Split(category)))
  }

  // ---------------------------------------------------------------------------------------
  // Split and Join are inverse to each other

  lemma {:induction false} JoinSplit(s: string)
    ensures Join(Split(s)) == s
  {
    if s != "" {
      var rest := Split(s[1..]);
      JoinSplit(s[1..]);
      if s[0] == ' ' {
        assert Split(s) == [""] + rest;
        assert ([""] + rest)[1..] == rest;
        assert Join(Split(s)) == "" + " " + Join(rest);
      } else {
        var words := Split(s);
        assert words == [[s[0]] + rest[0]] + rest[1..];
        if |rest| == 1 {
          assert Join(words) == [s[0]] + rest[0];
        } else {
          assert words[1..] == rest[1..];
          assert Join(words) == [s[0]] + rest[0] + " " + Join(rest[1..]);
          assert Join(rest) == rest[0] + " " + Join(rest[1..]);
        }
        assert s == [s[0]] + s[1..];
      }
    }
  }

  /** Splitting a string that starts with a space-free word glues that word onto the first piece. */
  lemma {:induction false} SplitSpaceFreePrefix(w: string, t: string)
    requires ' ' !in w
    ensures Split(w + t) == [w + Split(t)[0]] + Split(t)[1..]
  {
    if w == "" {
      assert w + t == t;
      assert w + Split(t)[0] == Split(t)[0];
      assert Split(t) == [Split(t)[0]] + Split(t)[1..];
    } else {
      SplitSpaceFreePrefix(w[1..], t);
      assert (w + t)[1..] == w[1..] + t;
      assert (w + t)[0] == w[0];
      assert [w[0]] + (w[1..] + Split(t)[0]) == w + Split(t)[0];
    }
  }

  lemma {:induction false} SplitJoin(words: seq<string>)
    requires |words| >= 1
    requires forall k :: 0 <= k < |words| ==> ' ' !in words[k]
    ensures Split(Join(words)) == words
  {
    if |words| == 1 {
      SplitSpaceFreePrefix(words[0], "");
      assert words[0] + "" == words[0];
    } else {
      var tail := Join(words[1..]);
      SplitJoin(words[1..]);
      SplitSpaceFreePrefix(words[0], " " + tail);
      assert (" " + tail)[0] == ' ' && (" " + tail)[1..] == tail;
      assert Split(" " + tail) == [""] + words[1..];
      assert words[0] + " " + tail == words[0] + (" " + tail);
      assert words[0] + "" == words[0];
      assert ([""] + words[1..])[1..] == words[1..];
      assert words == [words[0]] + words[1..];
    }
  }

  // ---------------------------------------------------------------------------------------
  // The split/map/join formatter agrees with the character-by-character reference

  lemma {:induction false} CapitalizedAfterAppend(a: string, b: string, prev: char)
    ensures CapitalizedAfter(a + b, prev) ==
      CapitalizedAfter(a, prev) + CapitalizedAfter(b, if a == "" then prev else a[|a| - 1])
  {
    if a == "" {
      assert a + b == b;
    } else {
      CapitalizedAfterAppend(a[1..], b, a[0]);
      assert (a + b)[1..] == a[1..] + b;
      assert (a + b)[0] == a[0];
      if |a| > 1 {
        assert a[1..][|a[1..]| - 1] == a[|a| - 1];
      }
    }
  }

  /** Inside a word (not after a space) and without spaces, nothing is upper-cased. */
  lemma {:induction false} CapitalizedAfterKeeps(s: string, prev: char)
    requires prev != ' ' && ' ' !in s
    ensures CapitalizedAfter(s, prev) == s
  {
    if s != "" {
      assert s[0] in s;
      assert forall c :: c in s[1..] ==> c in s;
      CapitalizedAfterKeeps(s[1..], s[0]);
    }
  }

  lemma CapitalizeWord(w: string)
    requires ' ' !in w
    ensures CapitalizedAfter(w, ' ') == Capitalize(w)
  {
    if w != "" {
      assert w[0] in w;
      assert forall c :: c in w[1..] ==> c in w;
      CapitalizedAfterKeeps(w[1..], w[0]);
    }
  }

  lemma {:induction false} JoinCapitalizeAll(words: seq<string>)
    requires |words| >= 1
    requires forall k :: 0 <= k < |words| ==> ' ' !in words[k]
    ensures Join(CapitalizeAll(words)) == CapitalizedAfter(Join(words), ' ')
  {
    CapitalizeWord(words[0]);
    if |words| > 1 {
      var w, tail := words[0], Join(words[1..]);
      JoinCapitalizeAll(words[1..]);
      assert CapitalizeAll(words)[1..] == CapitalizeAll(words[1..]);
      CapitalizedAfterAppend(w, " " + tail, ' ');
      assert (" " + tail)[1..] == tail;
      assert w + " " + tail == w + (" " + tail);
    }
  }

  lemma FormatIsCapitalizedAfter(category: string)
    ensures Join(CapitalizeAll(Split(category))) == CapitalizedAfter(category, ' ')
  {
    JoinSplit(category);
    JoinCapitalizeAll(Split(category));
  }

  lemma {:induction false} CapitalizedAfterAt(s: string, prev: char)
    ensures |CapitalizedAfter(s, prev)| == |s|
    ensures forall i :: 0 <= i < |s| ==>
      CapitalizedAfter(s, prev)[i] ==
        if (if i == 0 then prev else s[i - 1]) == ' ' then Upper(s[i]) else s[i]
  {
    if s != "" {
      CapitalizedAfterAt(s[1..], s[0]);
      var r := CapitalizedAfter(s, prev);
      forall i | 1 <= i < |s|
        ensures r[i] == if s[i - 1] == ' ' then Upper(s[i]) else s[i]
      {
        assert r[i] == CapitalizedAfter(s[1..], s[0])[i - 1];
      }
    }
  }

  // ---------------------------------------------------------------------------------------
  // Properties of the formatter

  /** Upper-casing never creates or removes a space. */
  lemma UpperKeepsSpaces(c: char)
    ensures Upper(c) == ' ' <==> c == ' '
    ensures Upper(Upper(c)) == Upper(c)
  {
  }

  lemma CapitalizeKeepsSpaceFree(w: string)
    requires ' ' !in w
    ensures ' ' !in Capitalize(w)
  {
    if w != "" {
      assert w[0] in w;
      assert forall c :: c in w[1..] ==> c in w;
      UpperKeepsSpaces(w[0]);
    }
  }

  /** The formatted string splits into the capitalized words of the input, so the word count is kept. */
  lemma FormatWords(category: string)
    ensures Split(Format(category)) == CapitalizeAll(Split(category))
    ensures |Split(Format(category))| == |Split(category)|
  {
    var words := Split(category);
    forall k | 0 <= k < |words| ensures ' ' !in CapitalizeAll(words)[k] {
      CapitalizeKeepsSpaceFree(words[k]);
    }
    SplitJoin(CapitalizeAll(words));
  }

  /** Formatting twice is formatting once. */
  lemma FormatIdempotent(category: string)
    ensures Format(Format(category)) == Format(category)
  {
    var once := Format(category);
    var twice := Format(once);
    forall i | 0 <= i < |category| ensures twice[i] == once[i] {
      UpperKeepsSpaces(category[i]);
      assert once[i] == if i == 0 || category[i - 1] == ' ' then Upper(category[i]) else category[i];
      assert twice[i] == if i == 0 || once[i - 1] == ' ' then Upper(once[i]) else once[i];
      if i > 0 {
        UpperKeepsSpaces(category[i - 1]);
        assert once[i - 1] == if i - 1 == 0 || category[i - 2] == ' ' then Upper(category[i - 1]) else category[i - 1];
      }
    }
  }

  /** Spaces stay where they are: runs of spaces and leading or trailing spaces survive. */
  lemma FormatKeepsSpaces(category: string)
    ensures Format("") == ""
    ensures forall i :: 0 <= i < |category| ==> (Format(category)[i] == ' ' <==> category[i] == ' ')
  {
    forall i | 0 <= i < |category| ensures Format(category)[i] == ' ' <==> category[i] == ' ' {
      UpperKeepsSpaces(category[i]);
      assert Format(category)[i] == if i == 0 || category[i - 1] == ' ' then Upper(category[i]) else category[i];
    }
  }
}
