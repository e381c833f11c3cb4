/**
  Under which name a section is found again: the title that is made from a name, by printing
  it or by indexing with it, is read back through the trimming of brackets.
 */
module IniNames {
  import opened IniText
  import opened IniModel
  import opened IniShape
  import opened IniPrinted

  /** The name that the title line of a section is read as, folded. */
  function Shown(name: string): string {
    Fold(TitleName("[" + name + "]"))
  }

  /** The name's own brackets do not change what it is compared by.  A closing bracket does not
      matter behind a NUL, where no comparison sees it. */
  predicate Stays(name: string) {
    name == "" || (name[0] != '[' && (name[|name| - 1] != ']' || '\0' in name))
  }

  // ------------------------------------------------------------- trimming under Fold

  lemma {:induction false} FoldLength(s: string)
    ensures |Fold(s)| <= |s| && ('\0' !in s ==> |Fold(s)| == |s|)
  {
    if s != "" {
      FoldLength(s[1..]);
    }
  }

  /** What stands behind a NUL does not show. */
  lemma {:induction false} FoldPrefix(s: string, n: nat)
    requires n <= |s|
    ensures |Fold(s[..n])| <= |Fold(s)| && ('\0' in s[..n] ==> Fold(s[..n]) == Fold(s))
  {
    if n > 0 {
      assert s[..n][1..] == s[1..][..n - 1];
      FoldPrefix(s[1..], n - 1);
    }
  }

  /** The characters cut off do not include the NUL. */
  lemma {:induction false} RTrimKeepsNul(s: string, cs: string)
    requires '\0' in s && '\0' !in cs
    ensures '\0' in RTrim(s, cs) && Fold(RTrim(s, cs)) == Fold(s)
  {
    if s[|s| - 1] in cs {
      RTrimKeepsNul(s[..|s| - 1], cs);
      FoldPrefix(s, |s| - 1);
    }
  }

  lemma {:induction false} RTrimFolds(s: string, cs: string)
    ensures |Fold(RTrim(s, cs))| <= |Fold(s)|
  {
    TrimSpec(s, cs);
    var r := RTrim(s, cs);
    assert r == s[..|r|];
    FoldPrefix(s, |r|);
  }

  lemma {:induction false} LTrimFolds(s: string, cs: string)
    requires '\0' !in cs
    ensures |Fold(LTrim(s, cs))| <= |Fold(s)|
    ensures s != "" && s[0] in cs ==> |Fold(LTrim(s, cs))| < |Fold(s)|
  {
    if s != "" && s[0] in cs {
      LTrimFolds(s[1..], cs);
    }
  }

  lemma {:induction false} TrimFolds(s: string)
    ensures |Fold(Trim(s))| <= |Fold(s)|
  {
    RTrimFolds(s, SPACES);
    LTrimFolds(RTrim(s), SPACES);
  }

  // ------------------------------------------------------------- the names that stay

  /** A name that begins with a bracket loses it. */
  lemma {:induction false} OpenName(name: string)
    requires GoodName(name) && name[0] == '['
    ensures |Shown(name)| < |Fold(name)|
  {
    var r := RTrim("[" + name + "]", "]");
    ClosedTitle(name);
    assert r[1..] != "" && r[1..][0] == '[';
    LTrimStep(r);
    LTrimFolds(r[1..], "[");
    TrimFolds(LTrim(r, "["));
  }

  /** The closing bracket goes; what is left begins with the bracket and the name. */
  lemma {:induction false} ClosedTitle(name: string)
    requires name != "" && (name[0] != ']' || '\0' in name)
    ensures var r := RTrim("[" + name + "]", "]");
            && |r| > 1 && r[0] == '[' && r[1] == name[0]
            && |Fold(r[1..])| <= |Fold(name)|
            && ('\0' in name ==> '\0' in r[1..] && Fold(r[1..]) == Fold(name))
  {
    hide RTrim, Fold;
    var open := "[" + name;
    RTrimStep(open);
    var r := RTrim(open, "]");
    assert r == open[..|r|] by { TrimSpec(open, "]"); }
    if name[0] != ']' {
      HeadStays(open);
    } else {
      RTrimKeepsNul(open, "]");
    }
    assert r[1..] == name[..|r| - 1];
    FoldPrefix(name, |r| - 1);
    if '\0' in name {
      RTrimKeepsNul(open, "]");
      assert r[0] != '\0';
      assert '\0' in r[1..] by {
        var i :| 0 <= i < |r| && r[i] == '\0';
        assert r[1..][i - 1] == '\0';
      }
    }
  }

  lemma {:induction false} HeadStays(open: string)
    requires |open| > 1 && open[1] != ']'
    ensures |RTrim(open, "]")| > 1
  {
    if open[|open| - 1] == ']' {
      HeadStays(open[..|open| - 1]);
    }
  }

  /** A closing bracket behind a NUL changes nothing that is compared. */
  lemma {:induction false} HiddenBracket(name: string)
    requires GoodName(name) && name[0] != '[' && '\0' in name
    ensures Shown(name) == Fold(name)
  {
    ClosedTitle(name);
    var r := RTrim("[" + name + "]", "]");
    var m := r[1..];
    LTrimStep(r);
    assert LTrim(r, "[") == m by { TrimSpec(m, "["); }
    RTrimKeepsNul(m, SPACES);
    RTrimKeepsHead(m);
    assert Trim(m) == RTrim(m) by { TrimSpec(RTrim(m), SPACES); }
  }

  /** A section is found under its own name again exactly when the name stays; otherwise under
      a shorter one. */
  lemma {:induction false} ShownNames(name: string)
    requires name == "" || GoodName(name)
    ensures Shown(name) == Fold(name) <==> Stays(name)
    ensures !Stays(name) ==> |Shown(name)| < |Fold(name)|
  {
    if name == "" {
      assert "[" + "" + "]" == "[]" && "[]"[..1] == "[";
      assert RTrim("[]", "]") == "[" && LTrim("[", "[") == "";
    } else if name[0] == '[' {
      OpenName(name);
    } else if name[|name| - 1] != ']' {
      TitlePrinted(name);
    } else if '\0' in name {
      HiddenBracket(name);
    } else {
      TitlePrinted(name);
      FoldLength(name);
      FoldLength(TitleName("[" + name + "]"));
    }
  }
}
