/**
 * The patch of `output/sample-book.typ` (`update_sample_book`): every occurrence of the fixed
 * title-and-authors block of the sample book is replaced by one built from the configuration.
 */
module Template {
  import opened Text

  /** The four lines of the block the sample template ships with, byte for byte. */
  const TitleLine: string := "title: \"Sample Book\",\n"
  const AuthorsLine: string := "  authors: (\n"
  const FirstAuthorLine: string := "  \"Antonio Mateos Belinch\U{f3}n\", \n"
  const LastAuthorLine: string := "  \"Alejandro Modro\U{f1}o Vara\"  ),"

  /** The sample block: the title line and the two sample authors. */
  const OldBlock: string := TitleLine + AuthorsLine + FirstAuthorLine + LastAuthorLine

  /** What separates two authors in the new block: a closing quote, a line break, an opening quote. */
  const AuthorSeparator: string := "\",\n  \""

  /** The block that replaces it: the title, then the authors one per line, each quoted. */
  function NewBlock(title: string, authors: seq<string>): string {
    "title: \"" + title + "\",\n  authors: (\n  \"" + Join(authors, AuthorSeparator) + "\"  ),"
  }

  /** The template text after the patch. */
  function Patch(content: string, title: string, authors: seq<string>): string {
    ReplaceAll(content, OldBlock, NewBlock(title, authors))
  }

  /** Neither string is a prefix of the other. */
  predicate Incompatible(a: string, b: string) {
    !StartsWith(a, b) && !StartsWith(b, a)
  }

  /**
   * If the result of a replacement starts with a proper tail of the pattern, so did the text
   * it was made from: no replacement text can begin such a tail.
   */
  lemma {:induction false} TailSurvives(s: string, pat: string, rep: string, j: nat)
    requires pat != "" && 1 <= j < |pat|
    requires forall k :: 1 <= k < |pat| ==> Incompatible(pat[k..], rep)
    ensures StartsWith(ReplaceAll(s, pat, rep), pat[j..]) ==> StartsWith(s, pat[j..])
    decreases |s|
  {
    var t := pat[j..];
    assert Incompatible(t, rep);
    if |s| >= |pat| {
      if s[..|pat|] == pat {
        var out := rep + ReplaceAll(s[|pat|..], pat, rep);
        if |t| <= |rep| {
          assert |t| <= |out| ==> out[..|t|] == rep[..|t|];
        } else {
          assert |t| <= |out| ==> out[..|t|][..|rep|] == rep;
        }
      } else {
        var r := ReplaceAll(s[1..], pat, rep);
        if |t| > 1 {
          TailSurvives(s[1..], pat, rep, j + 1);
          assert pat[j + 1..] == t[1..];
          assert |t| <= |r| + 1 ==> ([s[0]] + r)[..|t|] == [s[0]] + r[..|t| - 1];
          assert |t| <= |s| ==> s[..|t|] == [s[0]] + s[1..][..|t| - 1];
        }
      }
    }
  }

  /**
   * Text that starts with a replacement shows no occurrence when what follows shows none, the
   * replacement shows none, and the replacement does not end with a proper head of the pattern.
   */
  lemma NoneAfterReplacement(rep: string, r: string, pat: string)
    requires pat != "" && !Occurs(r, pat) && !Occurs(rep, pat)
    requires forall m :: 1 <= m < |pat| ==> !EndsWith(rep, pat[..m])
    ensures !Occurs(rep + r, pat)
  {
    var out := rep + r;
    forall p | 0 <= p && p + |pat| <= |out| ensures !OccursAt(out, pat, p) {
      if p >= |rep| {
        assert out[p..p + |pat|] == r[p - |rep|..p - |rep| + |pat|];
        assert !OccursAt(r, pat, p - |rep|);
      } else if p + |pat| <= |rep| {
        assert out[p..p + |pat|] == rep[p..p + |pat|];
        assert !OccursAt(rep, pat, p);
      } else {
        var m := |rep| - p;
        var w := out[p..p + |pat|];
        assert !EndsWith(rep, pat[..m]);
        assert rep[|rep| - m..] != pat[..m];
        assert w[..m] == rep[|rep| - m..] by {
          forall q | 0 <= q < m ensures w[..m][q] == rep[|rep| - m..][q] {
            assert w[q] == out[p + q] == rep[p + q];
          }
        }
        assert w[..m] != pat[..m];
      }
    }
  }

  /**
   * Text that starts with a character kept from `s` shows no occurrence when the rest shows
   * none and `s` does not start with the pattern.
   */
  lemma NoneAfterKept(s: string, pat: string, rep: string)
    requires pat != "" && |s| >= |pat| && s[..|pat|] != pat
    requires forall k :: 1 <= k < |pat| ==> Incompatible(pat[k..], rep)
    requires !Occurs(ReplaceAll(s[1..], pat, rep), pat)
    ensures !Occurs([s[0]] + ReplaceAll(s[1..], pat, rep), pat)
  {
    var r := ReplaceAll(s[1..], pat, rep);
    var out := [s[0]] + r;
    forall p | 0 <= p && p + |pat| <= |out| ensures !OccursAt(out, pat, p) {
      if p >= 1 {
        assert out[p..p + |pat|] == r[p - 1..p - 1 + |pat|];
        assert !OccursAt(r, pat, p - 1);
      } else if |pat| == 1 {
        assert s[..|pat|] == [s[0]] && out[..|pat|] == [s[0]];
      } else {
        TailSurvives(s[1..], pat, rep, 1);
        assert out[..|pat|] == [s[0]] + r[..|pat| - 1];
        assert s[..|pat|] == [s[0]] + s[1..][..|pat| - 1];
        assert pat == [pat[0]] + pat[1..];
      }
    }
  }

  /**
   * A replacement leaves no occurrence of the pattern behind when the replacement text does
   * not contain the pattern, cannot complete a proper tail of it, and does not end with a
   * proper head of it.
   */
  lemma {:induction false} ReplaceLeavesNone(s: string, pat: string, rep: string)
    requires pat != ""
    requires forall k :: 1 <= k < |pat| ==> Incompatible(pat[k..], rep)
    requires forall m :: 1 <= m < |pat| ==> !EndsWith(rep, pat[..m])
    requires !Occurs(rep, pat)
    ensures !Occurs(ReplaceAll(s, pat, rep), pat)
    decreases |s|
  {
    if |s| < |pat| {
      assert forall p :: !OccursAt(s, pat, p);
    } else if s[..|pat|] == pat {
      ReplaceLeavesNone(s[|pat|..], pat, rep);
      NoneAfterReplacement(rep, ReplaceAll(s[|pat|..], pat, rep), pat);
    } else {
      ReplaceLeavesNone(s[1..], pat, rep);
      NoneAfterKept(s, pat, rep);
    }
  }

  /** No `a` in the text is immediately followed by `b`. */
  predicate NoPair(s: string, a: char, b: char) {
    forall i :: 0 <= i < |s| - 1 ==> !(s[i] == a && s[i + 1] == b)
  }

  lemma NoPairConcat(s: string, t: string, a: char, b: char)
    requires NoPair(s, a, b) && NoPair(t, a, b)
    requires s != [] && t != [] ==> !(s[|s| - 1] == a && t[0] == b)
    ensures NoPair(s + t, a, b)
  {
    forall i | 0 <= i < |s + t| - 1 ensures !((s + t)[i] == a && (s + t)[i + 1] == b) {
      if i >= |s| {
        assert (s + t)[i] == t[i - |s|] && (s + t)[i + 1] == t[i + 1 - |s|];
      } else if i < |s| - 1 {
        assert (s + t)[i] == s[i] && (s + t)[i + 1] == s[i + 1];
      }
    }
  }

  lemma TiInLines()
    ensures forall i :: 1 <= i < |TitleLine| - 1 ==> !(TitleLine[i] == 't' && TitleLine[i + 1] == 'i')
    ensures NoPair(AuthorsLine, 't', 'i') && NoPair(FirstAuthorLine, 't', 'i') && NoPair(LastAuthorLine, 't', 'i')
  {
  }

  /** "ti" occurs in the old block only where it starts. */
  lemma TiOnlyAtStart()
    ensures forall i :: 1 <= i < |OldBlock| - 1 ==> !(OldBlock[i] == 't' && OldBlock[i + 1] == 'i')
  {
    TiInLines();
    NoPairConcat(AuthorsLine, FirstAuthorLine, 't', 'i');
    NoPairConcat(AuthorsLine + FirstAuthorLine, LastAuthorLine, 't', 'i');
    var rest := AuthorsLine + FirstAuthorLine + LastAuthorLine;
    assert OldBlock == TitleLine + rest;
    var n := |TitleLine|;
    forall i | 1 <= i < |OldBlock| - 1 ensures !(OldBlock[i] == 't' && OldBlock[i + 1] == 'i') {
      if i >= n {
        assert OldBlock[i] == rest[i - n] && OldBlock[i + 1] == rest[i + 1 - n];
      } else if i == n - 1 {
        assert OldBlock[i] == '\n';
      } else {
        assert OldBlock[i] == TitleLine[i] && OldBlock[i + 1] == TitleLine[i + 1];
      }
    }
  }

  /** "),": occurs in the old block only where it ends. */
  lemma ParenCommaOnlyAtEnd()
    ensures forall i :: 0 <= i < |OldBlock| - 2 ==> !(OldBlock[i] == ')' && OldBlock[i + 1] == ',')
  {
    assert NoPair(TitleLine, ')', ',');
    assert NoPair(AuthorsLine, ')', ',');
    assert NoPair(FirstAuthorLine, ')', ',');
    assert forall i :: 0 <= i < |LastAuthorLine| - 2 ==> !(LastAuthorLine[i] == ')' && LastAuthorLine[i + 1] == ',');
    NoPairConcat(TitleLine, AuthorsLine, ')', ',');
    NoPairConcat(TitleLine + AuthorsLine, FirstAuthorLine, ')', ',');
    var head := TitleLine + AuthorsLine + FirstAuthorLine;
    var n := |head|;
    forall i | 0 <= i < |OldBlock| - 2 ensures !(OldBlock[i] == ')' && OldBlock[i + 1] == ',') {
      if i >= n {
        assert OldBlock[i] == LastAuthorLine[i - n] && OldBlock[i + 1] == LastAuthorLine[i + 1 - n];
      } else if i == n - 1 {
        assert OldBlock[i] == '\n';
      } else {
        assert OldBlock[i] == head[i] && OldBlock[i + 1] == head[i + 1];
      }
    }
  }

  /** Every line break has a character before it, and that character is not a space. */
  predicate Tidy(s: string) {
    forall i :: 0 <= i < |s| && s[i] == '\n' ==> i > 0 && s[i - 1] != ' '
  }

  lemma TidyConcat(a: string, b: string)
    requires Tidy(a) && Tidy(b)
    ensures Tidy(a + b)
  {
    forall i | 0 <= i < |a + b| && (a + b)[i] == '\n' ensures i > 0 && (a + b)[i - 1] != ' ' {
      if i >= |a| {
        assert b[i - |a|] == '\n';
      }
    }
  }

  lemma {:induction false} JoinTidy(parts: seq<string>, sep: string)
    requires Tidy(sep) && forall i :: 0 <= i < |parts| ==> Tidy(parts[i])
    ensures Tidy(Join(parts, sep))
    decreases |parts|
  {
    if |parts| > 1 {
      JoinTidy(parts[1..], sep);
      TidyConcat(parts[0], sep);
      TidyConcat(parts[0] + sep, Join(parts[1..], sep));
    }
  }

  /** A block built from a title and authors without line breaks is tidy. */
  lemma NewBlockTidy(title: string, authors: seq<string>)
    requires NoNewline(title) && forall i :: 0 <= i < |authors| ==> NoNewline(authors[i])
    ensures Tidy(NewBlock(title, authors))
  {
    assert Tidy("\",\n  authors: (\n  \"");
    assert Tidy(AuthorSeparator);
    JoinTidy(authors, AuthorSeparator);
    TidyConcat("title: \"", title);
    TidyConcat("title: \"" + title, "\",\n  authors: (\n  \"");
    TidyConcat("title: \"" + title + "\",\n  authors: (\n  \"", Join(authors, AuthorSeparator));
    TidyConcat("title: \"" + title + "\",\n  authors: (\n  \"" + Join(authors, AuthorSeparator), "\"  ),");
  }

  /**
   * The old block does not occur in a new block built from a title and authors without line
   * breaks: the old block has a line break after a space, which a new block never has.
   */
  lemma OldNotInNew(title: string, authors: seq<string>)
    requires NoNewline(title) && forall i :: 0 <= i < |authors| ==> NoNewline(authors[i])
    ensures !Occurs(NewBlock(title, authors), OldBlock)
  {
    var block := NewBlock(title, authors);
    NewBlockTidy(title, authors);
    var k := 65;
    assert OldBlock[k - 1] == ' ' && OldBlock[k] == '\n';
    forall p | 0 <= p && p + |OldBlock| <= |block| ensures !OccursAt(block, OldBlock, p) {
      assert block[p + k] == '\n' ==> block[p + k - 1] != ' ';
      assert block[p..p + |OldBlock|][k] == block[p + k];
      assert block[p..p + |OldBlock|][k - 1] == block[p + k - 1];
    }
  }

  /** No proper tail of the old block can start, or be started by, a new block. */
  lemma TailsIncompatible(title: string, authors: seq<string>)
    ensures forall k :: 1 <= k < |OldBlock| ==> Incompatible(OldBlock[k..], NewBlock(title, authors))
  {
    var block := NewBlock(title, authors);
    assert block[0] == 't' && block[1] == 'i';
    TiOnlyAtStart();
    forall k | 1 <= k < |OldBlock| ensures Incompatible(OldBlock[k..], block) {
      var tail := OldBlock[k..];
      assert tail[0] == OldBlock[k];
      if k < |OldBlock| - 1 {
        assert tail[1] == OldBlock[k + 1];
        assert !(tail[0] == 't' && tail[1] == 'i');
        assert |tail| >= 2 && |block| >= 2;
      } else {
        assert tail == [','];
      }
    }
  }

  /** No new block ends with a proper head of the old block. */
  lemma HeadsNotEndings(title: string, authors: seq<string>)
    ensures forall m :: 1 <= m < |OldBlock| ==> !EndsWith(NewBlock(title, authors), OldBlock[..m])
  {
    var block := NewBlock(title, authors);
    var n := |block|;
    assert block[n - 2] == ')' && block[n - 1] == ',';
    ParenCommaOnlyAtEnd();
    forall m | 1 <= m < |OldBlock| && m <= n ensures !EndsWith(block, OldBlock[..m]) {
      var head := OldBlock[..m];
      var ending := block[n - m..];
      assert ending[m - 1] == ',';
      if m >= 2 {
        assert ending[m - 2] == ')';
        assert !(head[m - 2] == ')' && head[m - 1] == ',');
      } else {
        assert head[0] == 't';
      }
    }
  }

  /** Patching the sample block itself yields exactly the new block. */
  lemma PatchSample(title: string, authors: seq<string>)
    ensures Patch(OldBlock, title, authors) == NewBlock(title, authors)
  {
    assert OldBlock[..|OldBlock|] == OldBlock;
    assert OldBlock[|OldBlock|..] == "";
    assert ReplaceAll("", OldBlock, NewBlock(title, authors)) == "";
  }

  /**
   * The first sample block is replaced where it stands: the text before it is kept as it is,
   * and the text after it is patched in turn.
   */
  lemma PatchInPlace(pre: string, post: string, title: string, authors: seq<string>)
    requires !Occurs(pre + OldBlock[..|OldBlock| - 1], OldBlock)
    ensures Patch(pre + OldBlock + post, title, authors) == pre + NewBlock(title, authors) + Patch(post, title, authors)
  {
    ReplaceFirst(pre, OldBlock, NewBlock(title, authors), post);
  }

  /** A template without the old block is left as it is. */
  lemma PatchWithoutBlock(content: string, title: string, authors: seq<string>)
    requires !Occurs(content, OldBlock)
    ensures Patch(content, title, authors) == content
  {
    ReplaceAbsent(content, OldBlock, NewBlock(title, authors));
  }

  /**
   * After a patch with a title and authors without line breaks the old block is gone, so a
   * second patch, with any title and authors, changes nothing.
   */
  lemma PatchTwice(content: string, title: string, authors: seq<string>, title2: string, authors2: seq<string>)
    requires NoNewline(title) && forall i :: 0 <= i < |authors| ==> NoNewline(authors[i])
    ensures !Occurs(Patch(content, title, authors), OldBlock)
    ensures Patch(Patch(content, title, authors), title2, authors2) == Patch(content, title, authors)
  {
    TailsIncompatible(title, authors);
    HeadsNotEndings(title, authors);
    OldNotInNew(title, authors);
    ReplaceLeavesNone(content, OldBlock, NewBlock(title, authors));
    PatchWithoutBlock(Patch(content, title, authors), title2, authors2);
  }
}
