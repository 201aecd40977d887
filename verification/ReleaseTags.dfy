/** Which sources are release tags, and what images built from them are called. */
module ReleaseTags {
  import opened Prelude
  import opened ImagePipeline
  import Decimal

  /** The decimal text of a number has no needless zero, and ends where it ends. */
  lemma {:induction false} NumeralStarts(n: nat)
    ensures n > 0 ==> Decimal.Text(n)[0] != '0'
    ensures n == 0 ==> Decimal.Text(n) == "0"
  {
    if n >= 10 {
      NumeralStarts(n / 10);
    }
  }

  lemma {:induction false} DigitsEndAt(t: string, i: nat, k: nat)
    requires i <= k <= |t| && (forall m | i <= m < k :: Digit(t[m])) && (k < |t| ==> !Digit(t[k]))
    ensures DigitsEnd(t, i) == k
    decreases k - i
  {
    if i < k {
      DigitsEndAt(t, i + 1, k);
    }
  }

  lemma NumberEndsAfterNumeral(before: string, n: nat, after: string)
    requires after == "" || !Digit(after[0])
    ensures NumberEnd(before + Decimal.Text(n) + after, |before|) == |before| + |Decimal.Text(n)|
  {
    var t, k := before + Decimal.Text(n) + after, |before| + |Decimal.Text(n)|;
    Decimal.ValueOfText(n);
    NumeralStarts(n);
    assert t[|before|] == Decimal.Text(n)[0];
    if n > 0 {
      forall m | |before| <= m < k ensures Digit(t[m]) {
        assert t[m] == Decimal.Text(n)[m - |before|] && Decimal.Text(n)[m - |before|] in Decimal.Text(n);
      }
      DigitsEndAt(t, |before|, k);
    }
  }

  /** The text of a version: three numbers, and a suffix or none. */
  function VersionText(a: nat, b: nat, c: nat, suffix: string): string {
    "v" + Decimal.Text(a) + "." + Decimal.Text(b) + "." + Decimal.Text(c) + suffix
  }

  predicate Suffix(t: string) {
    t == "" || (|t| > 1 && (t[0] == '.' || t[0] == '-') && forall i | 0 < i < |t| :: SuffixChar(t[i]))
  }

  /** The text as its first number sees it, and so on. */
  lemma VersionParts(x: string, y: string, z: string, suffix: string)
    ensures
      var t := "v" + x + "." + y + "." + z + suffix;
      && t == "v" + x + ("." + y + "." + z + suffix)
      && t == ("v" + x + ".") + y + ("." + z + suffix)
      && t == ("v" + x + "." + y + ".") + z + suffix
  {
    var t, front := "v" + x + "." + y + "." + z + suffix, "v" + x;
    Regroup(front, "." + y, "." + z + suffix);
    Regroup(front + ".", y, "." + z + suffix);
    Regroup("." + y, ".", z + suffix);
    assert t == front + "." + y + ("." + z + suffix);
    assert front + ("." + y + "." + z + suffix) == t;
  }

  lemma Regroup(a: string, b: string, c: string)
    ensures a + b + c == a + (b + c)
  {
  }

  lemma VersionIsTag(a: nat, b: nat, c: nat, suffix: string)
    requires Suffix(suffix)
    ensures Version(VersionText(a, b, c, suffix))
  {
    var t, x, y, z := VersionText(a, b, c, suffix), Decimal.Text(a), Decimal.Text(b), Decimal.Text(c);
    VersionParts(x, y, z, suffix);
    Decimal.ValueOfText(a);
    Decimal.ValueOfText(b);
    Decimal.ValueOfText(c);
    NumberEndsAfterNumeral("v", a, "." + y + "." + z + suffix);
    NumberEndsAfterNumeral("v" + x + ".", b, "." + z + suffix);
    NumberEndsAfterNumeral("v" + x + "." + y + ".", c, suffix);
    var patch := |t| - |suffix|;
    assert forall i | patch <= i < |t| :: t[i] == suffix[i - patch];
  }

  lemma TagPrefixStripped(t: string)
    requires t != "" && t[0] == 'v'
    ensures ReleaseTag(t) == ReleaseTag(TAG_PREFIX + t)
  {
    assert (TAG_PREFIX + t)[|TAG_PREFIX|..] == t;
    assert TAG_PREFIX[0] == 'r';
  }

  /** Every version is a release tag, named with or without its ref prefix, and an image
      built from it has that tag and nothing else after its repository. */
  lemma VersionsAreTags(a: nat, b: nat, c: nat, suffix: string, ctx: Context)
    requires Suffix(suffix)
    requires
      var t := VersionText(a, b, c, suffix);
      ctx.sourceRef == t || ctx.sourceRef == TAG_PREFIX + t
    ensures
      var t := VersionText(a, b, c, suffix);
      && ReleaseTag(ctx.sourceRef) == Some(t)
      && ImageUri(ctx) == ctx.build.repository + ":" + (if ctx.profile == "evaluation" then "eval-" else "") + t
  {
    var t := VersionText(a, b, c, suffix);
    VersionIsTag(a, b, c, suffix);
    TagPrefixStripped(t);
    assert !(TAG_PREFIX <= t) by {
      assert t[0] == 'v' && TAG_PREFIX[0] == 'r';
    }
  }

  /** A tag is nothing but that: it starts with a v, and with a number without a needless
      zero; so a branch or a commit is none. */
  lemma TagsLookLikeVersions(sourceRef: string)
    ensures ReleaseTag(sourceRef).Some? ==>
      var t := ReleaseTag(sourceRef).value;
      && (sourceRef == t || sourceRef == TAG_PREFIX + t)
      && |t| >= 6 && t[0] == 'v' && Digit(t[1]) && (t[1] == '0' ==> t[2] == '.')
  {
    if ReleaseTag(sourceRef).Some? {
      var t := ReleaseTag(sourceRef).value;
      if TAG_PREFIX <= sourceRef {
        assert sourceRef == TAG_PREFIX + t;
      }
      NumberIsNotEmpty(t, 1);
    }
  }

  lemma NumberIsNotEmpty(t: string, i: nat)
    ensures i < NumberEnd(t, i) ==> i < |t| && Digit(t[i])
    ensures NumberEnd(t, i) > i && t[i] == '0' ==> NumberEnd(t, i) == i + 1
  {
  }
}
