/**
 * The rules CreatePost.js and EditPost.js share: the required-field check and
 * the slug derived from the title (lowercase, every run of characters outside
 * `[a-z0-9]` replaced by one `-`, then a leading and a trailing `-` removed).
 */
module PostForm {
  import opened Wrappers
  import opened Text
  import opened Seqs

  /** What `createPost` and `updatePost` send. */
  datatype PostPayload = PostPayload(
    id: Option<int>, title: string, slug: string, description: string,
    contentBurmese: string, image: string)

  /** Both required fields hold something other than white space. */
  predicate RequiredFilled(title: string, content: string) {
    !IsBlank(title) && !IsBlank(content)
  }

  /** `!title.trim() || !content.trim()` is false exactly when both required fields are filled. */
  lemma RequiredFilledIffTrimmed(title: string, content: string)
    ensures RequiredFilled(title, content) <==> Trim(title) != "" && Trim(content) != ""
  {
    TrimEmptyIffBlank(title);
    TrimEmptyIffBlank(content);
  }

  /** The characters of `[a-z0-9]`. */
  predicate IsAlnum(c: char) {
    'a' <= c <= 'z' || '0' <= c <= '9'
  }

  /** `.replace(/[^a-z0-9]+/g, '-')`; `inRun` says a `-` was just emitted for the current run. */
  function CollapseRuns(s: string, inRun: bool): string
    decreases |s|
  {
    if s == [] then ""
    else if IsAlnum(s[0]) then [s[0]] + CollapseRuns(s[1..], false)
    else if inRun then CollapseRuns(s[1..], true)
    else "-" + CollapseRuns(s[1..], true)
  }

  /** `.replace(/(^-|-$)/g, '')`. */
  function StripEdgeHyphens(s: string): string {
    var t := if s != [] && s[0] == '-' then s[1..] else s;
    if t != [] && t[|t| - 1] == '-' then t[..|t| - 1] else t
  }

  /** The slug CreatePost and EditPost derive from a title. */
  function Slugify(title: string): string {
    StripEdgeHyphens(CollapseRuns(Lower(title), false))
  }

  /** Only `[a-z0-9-]`, and no two hyphens in a row. */
  predicate SlugAlphabet(s: string) {
    && (forall i :: 0 <= i < |s| ==> IsAlnum(s[i]) || s[i] == '-')
    && (forall i :: 0 <= i < |s| - 1 ==> !(s[i] == '-' && s[i + 1] == '-'))
  }

  /** A well-formed slug: the alphabet above, and no hyphen at either end. */
  predicate IsSlug(s: string) {
    SlugAlphabet(s) && (s != [] ==> s[0] != '-' && s[|s| - 1] != '-')
  }

  /** Collapsing yields the slug alphabet; inside a run it never starts with a hyphen. */
  lemma {:induction false} CollapseShape(s: string, inRun: bool)
    ensures SlugAlphabet(CollapseRuns(s, inRun))
    ensures inRun && CollapseRuns(s, inRun) != [] ==> CollapseRuns(s, inRun)[0] != '-'
    decreases |s|
  {
    if s != [] {
      var next := !IsAlnum(s[0]);
      CollapseShape(s[1..], next);
      var rest := CollapseRuns(s[1..], next);
      if IsAlnum(s[0]) {
        assert CollapseRuns(s, inRun) == [s[0]] + rest;
      } else if !inRun {
        assert CollapseRuns(s, inRun) == "-" + rest;
      }
    }
  }

  /** Stripping the edge hyphens of a string in the slug alphabet gives a slug. */
  lemma StripShape(s: string)
    requires SlugAlphabet(s)
    ensures IsSlug(StripEdgeHyphens(s))
  {
    var t := if s != [] && s[0] == '-' then s[1..] else s;
    assert SlugAlphabet(t);
    assert t != [] ==> t[0] != '-' by {
      if t != [] && s != [] && s[0] == '-' { assert s[1] == t[0]; }
    }
    var r := StripEdgeHyphens(s);
    if t != [] && t[|t| - 1] == '-' {
      assert r == t[..|t| - 1];
      if r != [] {
        assert t[|t| - 2] == r[|r| - 1];
      }
    }
  }

  /** Every derived slug is well formed, e.g. "Hello, World! " gives "hello-world". */
  lemma SlugifyIsSlug(title: string)
    ensures IsSlug(Slugify(title))
  {
    CollapseShape(Lower(title), false);
    StripShape(CollapseRuns(Lower(title), false));
  }

  /** Collapsing text already in the slug alphabet changes nothing. */
  lemma {:induction false} CollapseFixpoint(s: string, inRun: bool)
    requires SlugAlphabet(s)
    requires inRun && s != [] ==> s[0] != '-'
    ensures CollapseRuns(s, inRun) == s
    decreases |s|
  {
    if s != [] {
      assert SlugAlphabet(s[1..]);
      CollapseFixpoint(s[1..], !IsAlnum(s[0]));
      assert s == [s[0]] + s[1..];
    }
  }

  /** A slug is its own slug. */
  lemma SlugFixpoint(s: string)
    requires IsSlug(s)
    ensures Slugify(s) == s
  {
    assert Lower(s) == s;
    CollapseFixpoint(s, false);
  }

  /** Deriving the slug twice is the same as deriving it once. */
  lemma SlugifyIdempotent(title: string)
    ensures Slugify(Slugify(title)) == Slugify(title)
  {
    SlugifyIsSlug(title);
    SlugFixpoint(Slugify(title));
  }

  /** An ASCII letter or digit, in either case. */
  predicate IsAsciiAlnum(c: char) {
    'a' <= c <= 'z' || 'A' <= c <= 'Z' || '0' <= c <= '9'
  }

  /** Collapsing a text with no letter or digit leaves at most one hyphen. */
  lemma {:induction false} CollapseNoAlnum(s: string, inRun: bool)
    requires forall i :: 0 <= i < |s| ==> !IsAlnum(s[i])
    ensures CollapseRuns(s, inRun) == if s == [] || inRun then "" else "-"
    decreases |s|
  {
    if s != [] {
      CollapseNoAlnum(s[1..], true);
    }
  }

  /** A title without ASCII letters or digits (all Burmese, say) gives the empty slug. */
  lemma NoAlnumTitleEmptySlug(title: string)
    requires forall i :: 0 <= i < |title| ==> !IsAsciiAlnum(title[i])
    ensures Slugify(title) == ""
  {
    CollapseNoAlnum(Lower(title), false);
  }

  /** The letters and digits of `s`, in order. */
  function Alnums(s: string): string
    decreases |s|
  {
    if s == [] then "" else (if IsAlnum(s[0]) then [s[0]] else "") + Alnums(s[1..])
  }

  /** Collapsing keeps exactly the letters and digits. */
  lemma {:induction false} CollapseKeepsAlnums(s: string, inRun: bool)
    ensures Alnums(CollapseRuns(s, inRun)) == Alnums(s)
    decreases |s|
  {
    if s != [] {
      var next := !IsAlnum(s[0]);
      CollapseKeepsAlnums(s[1..], next);
      var rest := CollapseRuns(s[1..], next);
      if IsAlnum(s[0]) {
        assert ([s[0]] + rest)[1..] == rest;
      } else if !inRun {
        assert ("-" + rest)[1..] == rest;
      }
    }
  }

  /** Removing a hyphen at the front or the back keeps the letters and digits. */
  lemma AlnumsDropLastHyphen(t: string)
    requires t != [] && t[|t| - 1] == '-'
    ensures Alnums(t[..|t| - 1]) == Alnums(t)
    decreases |t|
  {
    if |t| > 1 {
      AlnumsDropLastHyphen(t[1..]);
      assert t[1..][..|t| - 2] == t[..|t| - 1][1..];
    }
  }

  /** The slug keeps every letter and digit of the lowercased title, in order, and no other. */
  lemma SlugKeepsAlnums(title: string)
    ensures Alnums(Slugify(title)) == Alnums(Lower(title))
  {
    var c := CollapseRuns(Lower(title), false);
    CollapseKeepsAlnums(Lower(title), false);
    var t := if c != [] && c[0] == '-' then c[1..] else c;
    assert Alnums(t) == Alnums(c);
    if t != [] && t[|t| - 1] == '-' {
      AlnumsDropLastHyphen(t);
    }
  }

  /** A word of letters and digits is copied through. */
  lemma {:induction false} CollapseWord(w: string, rest: string, inRun: bool)
    requires w != [] && forall i :: 0 <= i < |w| ==> IsAlnum(w[i])
    ensures CollapseRuns(w + rest, inRun) == w + CollapseRuns(rest, false)
    decreases |w|
  {
    assert (w + rest)[1..] == w[1..] + rest;
    if |w| > 1 {
      CollapseWord(w[1..], rest, false);
      assert w == [w[0]] + w[1..];
    }
  }

  /** A run of other characters becomes one hyphen (none if a run is already open). */
  lemma {:induction false} CollapseSeparators(p: string, rest: string, inRun: bool)
    requires p != [] && forall i :: 0 <= i < |p| ==> !IsAlnum(p[i])
    ensures CollapseRuns(p + rest, inRun) == (if inRun then "" else "-") + CollapseRuns(rest, true)
    decreases |p|
  {
    assert (p + rest)[1..] == p[1..] + rest;
    if |p| > 1 {
      CollapseSeparators(p[1..], rest, true);
    }
  }

  /** Lowering the example title piece by piece. */
  lemma LowerHelloWorld()
    ensures Lower("Hello" + (", " + ("World" + "! "))) == "hello" + (", " + ("world" + "! "))
  {
    assert Lower("Hello") == "hello";
    assert Lower(", ") == ", ";
    assert Lower("World") == "world";
    assert Lower("! ") == "! ";
    LowerAppend("World", "! ");
    LowerAppend(", ", "World" + "! ");
    LowerAppend("Hello", ", " + ("World" + "! "));
  }

  /** Two words, each followed by a run of other characters, collapse to the words each followed by one hyphen. */
  lemma CollapseTwoWords(w1: string, p1: string, w2: string, p2: string)
    requires w1 != [] && forall i :: 0 <= i < |w1| ==> IsAlnum(w1[i])
    requires p1 != [] && forall i :: 0 <= i < |p1| ==> !IsAlnum(p1[i])
    requires w2 != [] && forall i :: 0 <= i < |w2| ==> IsAlnum(w2[i])
    requires p2 != [] && forall i :: 0 <= i < |p2| ==> !IsAlnum(p2[i])
    ensures CollapseRuns(w1 + (p1 + (w2 + p2)), false) == w1 + ("-" + (w2 + "-"))
  {
    CollapseWord(w1, p1 + (w2 + p2), false);
    CollapseSeparators(p1, w2 + p2, false);
    CollapseWord(w2, p2, true);
    assert p2 == p2 + "";
    CollapseSeparators(p2, "", false);
  }

  /** Stripping the example's trailing hyphen. */
  lemma StripHelloWorld()
    ensures StripEdgeHyphens("hello" + ("-" + ("world" + "-"))) == "hello-world"
  {
    var c := "hello" + ("-" + ("world" + "-"));
    assert c == "hello-world-";
    assert c[..|c| - 1] == "hello-world";
  }

  /** The worked example: "Hello, World! " gives "hello-world". */
  lemma HelloWorldSlug()
    ensures Slugify("Hello, World! ") == "hello-world"
  {
    var w1, p1, w2, p2 := "hello", ", ", "world", "! ";
    assert "Hello, World! " == "Hello" + (", " + ("World" + "! "));
    LowerHelloWorld();
    CollapseTwoWords(w1, p1, w2, p2);
    StripHelloWorld();
  }
}
