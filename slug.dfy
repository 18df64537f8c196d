/**
 * The workspace slug: `generateSlug(name, userId)`, written out identically in
 * actions/workspace-actions.ts, lib/user-signup.ts and lib/auth.ts. It is
 * modelled once here; the three provisioning modules call this one function.
 */
module Slug {
  import opened Common

  /** The characters the regex class `[a-z0-9]` admits. */
  predicate IsSlugChar(c: char) {
    'a' <= c <= 'z' || '0' <= c <= '9'
  }

  /** No two adjacent dashes. */
  predicate NoDoubleDash(s: string) {
    forall i, j :: 0 <= i < |s| && 0 <= j < |s| && j == i + 1 ==> !(s[i] == '-' && s[j] == '-')
  }

  predicate OnlySlugCharsOrDash(s: string) {
    forall i :: 0 <= i < |s| ==> IsSlugChar(s[i]) || s[i] == '-'
  }

  /** A base slug as the normalisation produces it. */
  predicate WellFormedBase(b: string) {
    && OnlySlugCharsOrDash(b)
    && NoDoubleDash(b)
    && (|b| > 0 ==> b[0] != '-' && b[|b| - 1] != '-')
  }

  /** The letters and digits of `s`, in order. */
  function SlugChars(s: string): (r: string)
    ensures forall i :: 0 <= i < |r| ==> IsSlugChar(r[i])
  {
    if |s| == 0 then ""
    else if IsSlugChar(s[|s| - 1]) then SlugChars(s[..|s| - 1]) + [s[|s| - 1]]
    else SlugChars(s[..|s| - 1])
  }

  /**
   * `.replace(/[^a-z0-9]+/g, "-")`: every maximal run of characters outside
   * `[a-z0-9]` becomes a single '-'; letters and digits are kept in order.
   */
  function CollapseRuns(s: string): (r: string)
    ensures OnlySlugCharsOrDash(r)
    ensures NoDoubleDash(r)
    ensures SlugChars(r) == SlugChars(s)
    ensures |r| > 0 <==> |s| > 0
    ensures |s| > 0 ==> (r[|r| - 1] == '-' <==> !IsSlugChar(s[|s| - 1]))
    ensures |s| > 0 ==> (r[0] == '-' <==> !IsSlugChar(s[0]))
  {
    if |s| == 0 then ""
    else
      var init := s[..|s| - 1];
      var c := s[|s| - 1];
      var r := CollapseRuns(init);
      if IsSlugChar(c) then
        assert SlugChars(r + [c]) == SlugChars(r) + [c] by {
          assert (r + [c])[..|r|] == r;
        }
        r + [c]
      else if |init| > 0 && !IsSlugChar(init[|init| - 1]) then r
      else
        assert SlugChars(r + "-") == SlugChars(r) by {
          assert (r + "-")[..|r|] == r;
        }
        r + "-"
  }

  /** `.replace(/^-+/, "")`: drops the leading run of dashes. */
  function TrimStart(s: string): (r: string)
    ensures |r| > 0 ==> r[0] != '-'
    ensures IsSuffix(r, s)
    ensures forall i :: 0 <= i < |s| - |r| ==> s[i] == '-'
  {
    if |s| > 0 && s[0] == '-' then TrimStart(s[1..]) else s
  }

  /** `.replace(/-+$/, "")`: drops the trailing run of dashes. */
  function TrimEnd(s: string): (r: string)
    ensures |r| > 0 ==> r[|r| - 1] != '-'
    ensures IsPrefix(r, s)
    ensures forall i :: |r| <= i < |s| ==> s[i] == '-'
  {
    if |s| > 0 && s[|s| - 1] == '-' then TrimEnd(s[..|s| - 1]) else s
  }

  function TrimDashes(s: string): string {
    TrimEnd(TrimStart(s))
  }

  /**
   * The normalised name: lower-case, collapse non-`[a-z0-9]` runs to '-', trim
   * dashes. The result holds only `a-z`, `0-9` and '-', never starts or ends
   * with '-', has no "--", and keeps exactly the lower-cased name's letters
   * and digits, in order.
   */
  function BaseSlug(name: string): (r: string)
    ensures WellFormedBase(r)
    ensures SlugChars(r) == SlugChars(Lower(name))
  {
    TrimKeepsShape(CollapseRuns(Lower(name)));
    TrimDashes(CollapseRuns(Lower(name)))
  }

  /** `userId.slice(-6).toLowerCase()`: the last min(6, |userId|) characters, lower-cased. */
  function Suffix(userId: string): (r: string)
    ensures |r| == Min(6, |userId|)
    ensures forall i :: 0 <= i < |r| ==> r[i] == LowerChar(userId[|userId| - |r| + i])
  {
    Lower(userId[|userId| - Min(6, |userId|)..])
  }

  /**
   * `generateSlug`: a well-formed base made of the name's letters and digits,
   * then '-', then the lower-cased tail of the user id.
   */
  function GenerateSlug(name: string, userId: string): (r: string)
    ensures var k := |r| - Min(6, |userId|) - 1;
      && 0 <= k && r[k] == '-'
      && WellFormedBase(r[..k]) && SlugChars(r[..k]) == SlugChars(Lower(name))
      && r[k + 1..] == Suffix(userId)
  {
    var b, t := BaseSlug(name), Suffix(userId);
    var r := b + "-" + t;
    assert |r| - Min(6, |userId|) - 1 == |b|;
    assert r[..|b|] == b && r[|b|] == '-' && r[|b| + 1..] == t;
    r
  }

  // ---------------------------------------------------------------------------
  // Properties of the normalisation

  lemma {:induction false} SlugCharsOfDashFree(s: string)
    requires forall i :: 0 <= i < |s| ==> s[i] != '-'
    requires OnlySlugCharsOrDash(s)
    ensures SlugChars(s) == s
  {
    if |s| > 0 {
      SlugCharsOfDashFree(s[..|s| - 1]);
    }
  }

  lemma {:induction false} TrimKeepsShape(s: string)
    requires OnlySlugCharsOrDash(s) && NoDoubleDash(s)
    ensures WellFormedBase(TrimDashes(s))
    ensures SlugChars(TrimDashes(s)) == SlugChars(s)
  {
    var t := TrimStart(s);
    var u := TrimEnd(t);
    var a := |s| - |t|;
    assert u == s[a..a + |u|] by {
      assert t == s[a..];
      assert u == t[..|u|];
    }
    forall i | a + |u| <= i < |s| ensures s[i] == '-' {
      assert t[i - a] == '-';
    }
    if |u| > 0 {
      assert u[0] == t[0];
    }
    TrimmedSlice(s, a, a + |u|);
  }

  /** The slice between a run of leading and a run of trailing dashes is a base slug with the same letters and digits. */
  lemma {:induction false} TrimmedSlice(s: string, a: nat, b: nat)
    requires a <= b <= |s|
    requires OnlySlugCharsOrDash(s) && NoDoubleDash(s)
    requires forall i :: 0 <= i < a ==> s[i] == '-'
    requires forall i :: b <= i < |s| ==> s[i] == '-'
    requires a < b ==> s[a] != '-' && s[b - 1] != '-'
    ensures WellFormedBase(s[a..b])
    ensures SlugChars(s[a..b]) == SlugChars(s)
  {
    SliceKeepsShape(s, a, b);
    var u := s[a..b];
    if a < b {
      assert u[0] == s[a] && u[|u| - 1] == s[b - 1];
    }
    DashesOnlyAround(s, a, b);
  }

  /** A slice of a string of letters, digits and single dashes is one too. */
  lemma {:induction false} SliceKeepsShape(s: string, a: nat, b: nat)
    requires a <= b <= |s|
    requires OnlySlugCharsOrDash(s) && NoDoubleDash(s)
    ensures OnlySlugCharsOrDash(s[a..b]) && NoDoubleDash(s[a..b])
  {
    assert forall i :: 0 <= i < b - a ==> s[a..b][i] == s[a + i];
  }

  /** Cutting off leading and trailing dashes does not change the letters and digits. */
  lemma {:induction false} DashesOnlyAround(s: string, a: nat, b: nat)
    requires a <= b <= |s|
    requires forall i :: 0 <= i < a ==> s[i] == '-'
    requires forall i :: b <= i < |s| ==> s[i] == '-'
    ensures SlugChars(s[a..b]) == SlugChars(s)
    decreases |s|
  {
    if b < |s| {
      assert s[..|s| - 1][a..b] == s[a..b];
      DashesOnlyAround(s[..|s| - 1], a, b);
    } else if a > 0 {
      assert s[1..][a - 1..b - 1] == s[a..b] by {
        assert forall i :: 0 <= i < b - a ==> s[1..][a - 1..b - 1][i] == s[a + i] == s[a..b][i];
      }
      DashesOnlyAround(s[1..], a - 1, b - 1);
      SlugCharsDropFirstDash(s);
      assert SlugChars(s[a..b]) == SlugChars(s[1..]);
    } else {
      assert s[a..b] == s;
    }
  }

  lemma {:induction false} SlugCharsDropFirstDash(s: string)
    requires |s| > 0 && s[0] == '-'
    ensures SlugChars(s[1..]) == SlugChars(s)
    decreases |s|
  {
    if |s| > 1 {
      assert s[..|s| - 1][1..] == s[1..][..|s| - 2];
      SlugCharsDropFirstDash(s[..|s| - 1]);
    }
  }

  lemma {:induction false} SlugCharsEmptyIff(s: string)
    ensures SlugChars(s) == "" <==> forall i :: 0 <= i < |s| ==> !IsSlugChar(s[i])
  {
    if |s| > 0 {
      SlugCharsEmptyIff(s[..|s| - 1]);
      assert forall i :: 0 <= i < |s| - 1 ==> s[..|s| - 1][i] == s[i];
    }
  }

  /** The base slug is empty exactly when the name has no ASCII letter or digit. */
  lemma BaseSlugEmptyIff(name: string)
    ensures BaseSlug(name) == "" <==> forall i :: 0 <= i < |name| ==> !IsSlugChar(LowerChar(name[i]))
  {
    var b := BaseSlug(name);
    SlugCharsEmptyIff(Lower(name));
    SlugCharsEmptyIff(b);
    if b != "" {
      assert b[0] != '-';
      assert IsSlugChar(b[0]);
    }
  }

  /** So a name without letters or digits gives the slug "-" followed by the suffix. */
  lemma SlugOfSymbolsOnlyName(name: string, userId: string)
    requires forall i :: 0 <= i < |name| ==> !IsSlugChar(LowerChar(name[i]))
    ensures GenerateSlug(name, userId) == "-" + Suffix(userId)
  {
    BaseSlugEmptyIff(name);
  }

  /** Each normalisation step leaves an already well-formed base slug unchanged. */
  lemma {:induction false} CollapseFixesWellFormed(s: string)
    requires OnlySlugCharsOrDash(s) && NoDoubleDash(s)
    requires |s| > 0 ==> s[0] != '-'
    ensures CollapseRuns(s) == s
  {
    if |s| > 0 {
      var init := s[..|s| - 1];
      CollapseFixesWellFormed(init);
      if !IsSlugChar(s[|s| - 1]) {
        assert s[|s| - 1] == '-';
        if |init| > 0 {
          assert init[|init| - 1] != '-';
        }
      }
      assert s == init + [s[|s| - 1]];
    }
  }

  lemma LowerFixesWellFormed(b: string)
    requires OnlySlugCharsOrDash(b)
    ensures Lower(b) == b
  {
  }

  /** Normalising an already-normalised base slug leaves it unchanged. */
  lemma BaseSlugFixesWellFormed(b: string)
    requires WellFormedBase(b)
    ensures BaseSlug(b) == b
  {
    LowerFixesWellFormed(b);
    CollapseFixesWellFormed(b);
    assert TrimStart(b) == b;
    assert TrimEnd(b) == b;
  }

  /** Idempotence: normalising twice is normalising once. */
  lemma BaseSlugIdempotent(name: string)
    ensures BaseSlug(BaseSlug(name)) == BaseSlug(name)
  {
    BaseSlugFixesWellFormed(BaseSlug(name));
  }

  // ---------------------------------------------------------------------------
  // Where the dashes go

  /** A string of letters and digits only passes through the collapse unchanged. */
  lemma {:induction false} CollapseKeepsWord(w: string)
    requires forall i :: 0 <= i < |w| ==> IsSlugChar(w[i])
    ensures CollapseRuns(w) == w
  {
    if |w| > 0 {
      CollapseKeepsWord(w[..|w| - 1]);
      assert w == w[..|w| - 1] + [w[|w| - 1]];
    }
  }

  /** A non-empty run without letters or digits collapses to a single '-'. */
  lemma {:induction false} CollapseRunIsDash(run: string)
    requires |run| > 0
    requires forall i :: 0 <= i < |run| ==> !IsSlugChar(run[i])
    ensures CollapseRuns(run) == "-"
  {
    if |run| > 1 {
      CollapseRunIsDash(run[..|run| - 1]);
    }
  }

  /**
   * With a letter or digit on either side of the cut no run crosses it, so
   * the two parts collapse separately.
   */
  lemma {:induction false} CollapseAppend(u: string, v: string)
    requires |u| > 0 && |v| > 0
    requires IsSlugChar(u[|u| - 1]) || IsSlugChar(v[0])
    ensures CollapseRuns(u + v) == CollapseRuns(u) + CollapseRuns(v)
    decreases |v|
  {
    var init, c := v[..|v| - 1], v[|v| - 1];
    assert v == init + [c];
    if |v| == 1 {
      assert init == [];
      CollapseAppendOne(u, c);
    } else {
      assert init[0] == v[0];
      CollapseAppend(u, init);
      CollapseAppendStep(u, init, c);
    }
  }

  /** The base case of `CollapseAppend`: one character after a string. */
  lemma {:induction false} CollapseAppendOne(u: string, c: char)
    requires |u| > 0 && (IsSlugChar(u[|u| - 1]) || IsSlugChar(c))
    ensures CollapseRuns(u + [c]) == CollapseRuns(u) + CollapseRuns([c])
  {
    CollapseSnoc(u, c);
    CollapseSnoc("", c);
    assert "" + [c] == [c];
  }

  /** The inductive step of `CollapseAppend`: one more character at the end. */
  lemma {:induction false} CollapseAppendStep(u: string, init: string, c: char)
    requires |u| > 0 && |init| > 0
    requires CollapseRuns(u + init) == CollapseRuns(u) + CollapseRuns(init)
    ensures CollapseRuns(u + (init + [c])) == CollapseRuns(u) + CollapseRuns(init + [c])
  {
    assert u + (init + [c]) == (u + init) + [c];
    assert (u + init)[|u + init| - 1] == init[|init| - 1];
    CollapseSnoc(u + init, c);
    CollapseSnoc(init, c);
  }

  /** One step of the collapse: what a character added at the end contributes. */
  lemma {:induction false} CollapseSnoc(s: string, c: char)
    ensures CollapseRuns(s + [c]) == CollapseRuns(s) +
      if IsSlugChar(c) then [c] else if |s| > 0 && !IsSlugChar(s[|s| - 1]) then "" else "-"
  {
    assert (s + [c])[..|s|] == s;
  }

  /** Leading dashes lie wholly in the first part when it ends in something else. */
  lemma {:induction false} TrimStartAppend(x: string, y: string)
    requires |x| > 0 && x[|x| - 1] != '-'
    ensures TrimStart(x + y) == TrimStart(x) + y
  {
    if x[0] == '-' {
      assert (x + y)[1..] == x[1..] + y;
      TrimStartAppend(x[1..], y);
    }
  }

  /** Trailing dashes lie wholly in the second part when it starts with something else. */
  lemma {:induction false} TrimEndAppend(x: string, y: string)
    requires |y| > 0 && y[0] != '-'
    ensures TrimEnd(x + y) == x + TrimEnd(y)
    decreases |y|
  {
    if y[|y| - 1] == '-' {
      assert (x + y)[..|x + y| - 1] == x + y[..|y| - 1];
      TrimEndAppend(x, y[..|y| - 1]);
    }
  }

  /**
   * Between a letter or digit and the next one, the base slug has a '-'
   * exactly when the name has a separator there: a non-empty run without
   * letters or digits becomes one '-', and no run gives no '-'.
   */
  lemma {:induction false} BaseSlugSeparator(u: string, run: string, v: string)
    requires |u| > 0 && IsSlugChar(LowerChar(u[|u| - 1]))
    requires |v| > 0 && IsSlugChar(LowerChar(v[0]))
    requires forall i :: 0 <= i < |run| ==> !IsSlugChar(LowerChar(run[i]))
    ensures BaseSlug(u + run + v) == BaseSlug(u) + (if |run| > 0 then "-" else "") + BaseSlug(v)
  {
    var lu, lr, lv := Lower(u), Lower(run), Lower(v);
    assert Lower(u + run + v) == lu + lr + lv;
    CollapseJoin(lu, lr, lv);
    TrimJoin(CollapseRuns(lu), if |run| > 0 then "-" else "", CollapseRuns(lv));
  }

  /** The collapse of a separator between a letter or digit and another one. */
  lemma {:induction false} CollapseJoin(u: string, run: string, v: string)
    requires |u| > 0 && IsSlugChar(u[|u| - 1])
    requires |v| > 0 && IsSlugChar(v[0])
    requires forall i :: 0 <= i < |run| ==> !IsSlugChar(run[i])
    ensures CollapseRuns(u + run + v) == CollapseRuns(u) + (if |run| > 0 then "-" else "") + CollapseRuns(v)
  {
    if |run| > 0 {
      CollapseRunIsDash(run);
      CollapseAppend(u, run);
      CollapseAppend(u + run, v);
    } else {
      assert u + run + v == u + v;
      CollapseAppend(u, v);
    }
  }

  /** Trimming works on the two ends alone when neither part is dashes only at the join. */
  lemma {:induction false} TrimJoin(x: string, mid: string, y: string)
    requires |x| > 0 && x[|x| - 1] != '-'
    requires |y| > 0 && y[0] != '-'
    ensures TrimDashes(x + mid + y) == TrimDashes(x) + mid + TrimDashes(y)
  {
    var sx := TrimStart(x);
    assert |sx| > 0 && sx[|sx| - 1] == x[|x| - 1];
    TrimStartAppend(x, mid + y);
    assert x + mid + y == x + (mid + y);
    assert sx + (mid + y) == (sx + mid) + y;
    TrimEndAppend(sx + mid, y);
    assert TrimEnd(sx) == sx;
    assert TrimStart(y) == y;
  }

  /** A name of letters and digits only is just lower-cased. */
  lemma {:induction false} BaseSlugOfWord(w: string)
    requires |w| > 0 && forall i :: 0 <= i < |w| ==> IsSlugChar(LowerChar(w[i]))
    ensures BaseSlug(w) == Lower(w)
  {
    CollapseKeepsWord(Lower(w));
    var l := Lower(w);
    assert TrimStart(l) == l;
    assert TrimEnd(l) == l;
  }

  // ---------------------------------------------------------------------------
  // Properties of the full slug

  /** The slug is the base, a '-', then the suffix; nothing else is added. */
  lemma {:induction false} SlugShape(name: string, userId: string)
    ensures var slug, k := GenerateSlug(name, userId), |BaseSlug(name)| + 1;
      && |slug| == k + Min(6, |userId|)
      && IsPrefix(BaseSlug(name) + "-", slug)
      && slug[k..] == Suffix(userId)
  {
    var head := BaseSlug(name) + "-";
    assert (head + Suffix(userId))[|head|..] == Suffix(userId);
  }

  /**
   * For user ids of at least six characters, two slugs coincide exactly when
   * the base slugs coincide and the lower-cased six-character suffixes do.
   */
  lemma {:induction false} SlugEqualIff(name1: string, id1: string, name2: string, id2: string)
    requires |id1| >= 6 && |id2| >= 6
    ensures GenerateSlug(name1, id1) == GenerateSlug(name2, id2)
        <==> BaseSlug(name1) == BaseSlug(name2) && Suffix(id1) == Suffix(id2)
  {
    var s1, s2 := GenerateSlug(name1, id1), GenerateSlug(name2, id2);
    var b1, b2 := BaseSlug(name1), BaseSlug(name2);
    assert s1 == b1 + "-" + Suffix(id1) && s2 == b2 + "-" + Suffix(id2);
    if s1 == s2 {
      assert |b1| == |b2|;
      assert b1 == s1[..|b1|] && b2 == s2[..|b2|];
      assert Suffix(id1) == s1[|b1| + 1..] && Suffix(id2) == s2[|b2| + 1..];
    }
  }

  /**
   * Two user ids that differ only before their last six characters, or in the
   * case of those, give the same slug for the same name: the suffix does not
   * make slugs distinct.
   */
  lemma {:induction false} SameSuffixSameSlug(name: string, head1: string, head2: string, tail1: string, tail2: string)
    requires |tail1| == |tail2| == 6 && Lower(tail1) == Lower(tail2)
    ensures GenerateSlug(name, head1 + tail1) == GenerateSlug(name, head2 + tail2)
  {
    assert (head1 + tail1)[|head1|..] == tail1;
    assert (head2 + tail2)[|head2|..] == tail2;
  }
}
