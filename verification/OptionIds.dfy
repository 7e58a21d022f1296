/** What the validators promise: acceptance, option IDs, and their fit with the services. */
module OptionIds {
  import opened Models
  import opened Texts
  import opened Validators

  predicate OptionFrom(r: OptionRequest, o: PollOption) { o.text == Text(r) && (r.id != "" ==> o.id == r.id) }

  lemma AddAppends(lower: char -> char, seen: set<string>, options: seq<PollOption>, i: nat, r: OptionRequest)
    requires Add(lower, seen, options, i, r).Going?
    ensures |Add(lower, seen, options, i, r).options| == |options| + 1
    ensures Add(lower, seen, options, i, r).options[..|options|] == options
    ensures OptionFrom(r, Add(lower, seen, options, i, r).options[|options|])
  {
  }

  /** An option is settled once built. */
  lemma {:induction false} BuiltPrefix(lower: char -> char, requests: seq<OptionRequest>, m: nat, n: nat)
    requires m <= n <= |requests| && At(lower, requests, n).Going?
    ensures At(lower, requests, m).Going? && At(lower, requests, m).options <= At(lower, requests, n).options
    decreases n
  {
    if m < n {
      AtStep(lower, requests, n - 1);
      BuiltPrefix(lower, requests, m, n - 1);
    }
  }

  /** The accepted options carry the trimmed texts, in order, and the IDs the caller supplied. */
  lemma {:induction false} BuiltTexts(lower: char -> char, requests: seq<OptionRequest>, n: nat)
    requires n <= |requests| && At(lower, requests, n).Going?
    ensures |At(lower, requests, n).options| == n
    ensures forall j: nat :: j < n ==> OptionFrom(requests[j], At(lower, requests, n).options[j])
    decreases n
  {
    if n > 0 {
      AtStep(lower, requests, n - 1);
      BuiltTexts(lower, requests, n - 1);
      var before := At(lower, requests, n - 1);
      AddAppends(lower, before.seen, before.options, n - 1, requests[n - 1]);
      var after := At(lower, requests, n).options;
      forall j: nat | j < n ensures OptionFrom(requests[j], after[j]) {
        if j < n - 1 { assert after[j] == after[..n - 1][j]; }
      }
    }
  }

  predicate Fits(r: OptionRequest) { Text(r) != "" && ByteLen(Text(r)) <= 200 }

  ghost predicate DistinctLowered(lower: char -> char, requests: seq<OptionRequest>, n: nat)
    requires n <= |requests|
  {
    forall i, j :: 0 <= i < j < n ==> Lowered(lower, requests[i]) != Lowered(lower, requests[j])
  }

  lemma {:induction false} AcceptedAreDistinct(lower: char -> char, requests: seq<OptionRequest>, n: nat)
    requires n <= |requests| && At(lower, requests, n).Going?
    ensures (forall j :: 0 <= j < n ==> Fits(requests[j])) && DistinctLowered(lower, requests, n)
    decreases n
  {
    if n > 0 {
      AtStep(lower, requests, n - 1);
      AcceptedAreDistinct(lower, requests, n - 1);
      SeenIs(lower, requests, n - 1);
      forall i: nat | i < n - 1 ensures Lowered(lower, requests[i]) != Lowered(lower, requests[n - 1]) {
        assert SeenBy(lower, requests, At(lower, requests, n - 1).options, i, Lowered(lower, requests[i]));
      }
    }
  }

  /** An accepted request has its trimmed texts in order and never fails the service's own check. */
  lemma AcceptedPassesService(lower: char -> char, requests: seq<OptionRequest>)
    requires Build(lower, requests).Going?
    ensures |Build(lower, requests).options| == |requests| && DistinctTexts(Build(lower, requests).options)
    ensures forall j: nat :: j < |requests| ==> OptionFrom(requests[j], Build(lower, requests).options[j])
  {
    assert requests[..|requests|] == requests;
    BuiltTexts(lower, requests, |requests|);
    AcceptedAreDistinct(lower, requests, |requests|);
  }

  function SlugAt(lower: char -> char, requests: seq<OptionRequest>, j: nat): string
    requires j < |requests|
  {
    Slug(lower, Text(requests[j]))
  }

  /** What request `k` claims for later ones: its lower-cased text and, marked "id:", the ID generated for it. */
  ghost predicate Claims(lower: char -> char, requests: seq<OptionRequest>, k: nat, s: string)
    requires k < |requests|
    decreases k, 2
  {
    s == Lowered(lower, requests[k]) || (requests[k].id == "" && s == "id:" + IdOf(lower, requests, k))
  }

  ghost predicate Claimed(lower: char -> char, requests: seq<OptionRequest>, n: nat, s: string)
    requires n <= |requests|
    decreases n, 0
  {
    exists k: nat :: k < n && Claims(lower, requests, k, s)
  }

  /** The ID meant for text `i`, without any seen set: its slug, suffixed when an earlier request claims that. */
  ghost function IdOf(lower: char -> char, requests: seq<OptionRequest>, i: nat): string
    requires i < |requests|
    decreases i, 1
  {
    var slug := SlugAt(lower, requests, i);
    if Claimed(lower, requests, i, "id:" + slug) then Suffixed(slug, i) else slug
  }

  ghost predicate Admissible(lower: char -> char, requests: seq<OptionRequest>, j: nat)
    requires j < |requests|
  {
    Fits(requests[j]) && !Claimed(lower, requests, j, Lowered(lower, requests[j]))
  }

  ghost function Expected(lower: char -> char, requests: seq<OptionRequest>, j: nat): PollOption
    requires j < |requests|
  {
    PollOption(if requests[j].id != "" then requests[j].id else IdOf(lower, requests, j), Text(requests[j]))
  }

  /** `built` is what the first `n` requests ask for. */
  ghost predicate AsExpected(lower: char -> char, requests: seq<OptionRequest>, built: seq<PollOption>, n: nat)
    requires n <= |requests|
  {
    |built| == n && forall j: nat :: j < n ==> built[j] == Expected(lower, requests, j)
  }

  lemma ClaimIsSeen(lower: char -> char, requests: seq<OptionRequest>, options: seq<PollOption>, k: nat, s: string)
    requires k < |requests| && k < |options| && options[k] == Expected(lower, requests, k)
    ensures SeenBy(lower, requests, options, k, s) <==> Claims(lower, requests, k, s)
  {
  }

  lemma ClaimsAreSeen(lower: char -> char, requests: seq<OptionRequest>, n: nat, options: seq<PollOption>, s: string)
    requires n <= |requests| && AsExpected(lower, requests, options, n)
    ensures Claimed(lower, requests, n, s) <==> exists k: nat :: k < n && SeenBy(lower, requests, options, k, s)
  {
    if k: nat :| k < n && SeenBy(lower, requests, options, k, s) {
      ClaimIsSeen(lower, requests, options, k, s);
    } else {
      forall k: nat | k < n ensures !Claims(lower, requests, k, s) { ClaimIsSeen(lower, requests, options, k, s); }
    }
  }

  /** One round of the loop, with a seen set that tells the claims. */
  lemma AddExactly(lower: char -> char, requests: seq<OptionRequest>, m: nat, seen: set<string>,
                   options: seq<PollOption>)
    requires m < |requests| && AsExpected(lower, requests, options, m)
    requires Lowered(lower, requests[m]) in seen <==> Claimed(lower, requests, m, Lowered(lower, requests[m]))
    requires "id:" + SlugAt(lower, requests, m) in seen <==>
              Claimed(lower, requests, m, "id:" + SlugAt(lower, requests, m))
    ensures Add(lower, seen, options, m, requests[m]).Going? <==> Admissible(lower, requests, m)
    ensures Admissible(lower, requests, m) ==>
              Add(lower, seen, options, m, requests[m]).options == options + [Expected(lower, requests, m)]
  {
    assert |"id:" + SlugAt(lower, requests, m)| != |Lowered(lower, requests[m])|;
  }

  lemma SeenIsClaimed(lower: char -> char, requests: seq<OptionRequest>, n: nat, s: string)
    requires n <= |requests| && At(lower, requests, n).Going?
    requires AsExpected(lower, requests, At(lower, requests, n).options, n)
    ensures s in At(lower, requests, n).seen <==> Claimed(lower, requests, n, s)
  {
    SeenIs(lower, requests, n);
    ClaimsAreSeen(lower, requests, n, At(lower, requests, n).options, s);
  }

  lemma StepExactly(lower: char -> char, requests: seq<OptionRequest>, m: nat)
    requires m < |requests| && At(lower, requests, m).Going?
    requires AsExpected(lower, requests, At(lower, requests, m).options, m)
    ensures At(lower, requests, m + 1).Going? <==> Admissible(lower, requests, m)
    ensures At(lower, requests, m + 1).Going? ==> AsExpected(lower, requests, At(lower, requests, m + 1).options, m + 1)
  {
    SeenIsClaimed(lower, requests, m, Lowered(lower, requests[m]));
    SeenIsClaimed(lower, requests, m, "id:" + SlugAt(lower, requests, m));
    AddExactly(lower, requests, m, At(lower, requests, m).seen, At(lower, requests, m).options);
    AtStep(lower, requests, m);
  }

  /** Every list, whatever IDs it brings: it is accepted exactly when each text fits and is claimed by no earlier
      request, and then it becomes exactly the expected options. */
  lemma {:induction false} BuiltExactly(lower: char -> char, requests: seq<OptionRequest>, n: nat)
    requires n <= |requests|
    ensures At(lower, requests, n).Going? <==> forall j: nat :: j < n ==> Admissible(lower, requests, j)
    ensures At(lower, requests, n).Going? ==> AsExpected(lower, requests, At(lower, requests, n).options, n)
    decreases n
  {
    if n > 0 {
      BuiltExactly(lower, requests, n - 1);
      if At(lower, requests, n - 1).Going? {
        StepExactly(lower, requests, n - 1);
      } else {
        AtStep(lower, requests, n - 1);
      }
    }
  }

  /** Why an inadmissible request is refused. */
  function Reason(r: OptionRequest): Error {
    if AllSpace(r.text) then EmptyText else if ByteLen(Text(r)) > 200 then TextTooLong else DuplicateText
  }

  /** Request `j` is the first that is not admissible. */
  ghost predicate FirstBad(lower: char -> char, requests: seq<OptionRequest>, j: nat)
    requires j < |requests|
  {
    !Admissible(lower, requests, j) && forall i: nat :: i < j ==> Admissible(lower, requests, i)
  }

  lemma {:induction false} StoppedAtFirstBad(lower: char -> char, requests: seq<OptionRequest>, n: nat) returns (j: nat)
    requires n <= |requests| && At(lower, requests, n).Stopped?
    ensures j < n && FirstBad(lower, requests, j) && At(lower, requests, n).error == Reason(requests[j])
    decreases n
  {
    j := n - 1;
    AtStep(lower, requests, j);
    if At(lower, requests, j).Stopped? {
      j := StoppedAtFirstBad(lower, requests, j);
    } else {
      BuiltExactly(lower, requests, j);
      StepExactly(lower, requests, j);
      TrimIsTrimmed(requests[j].text);
    }
  }

  class CreatePollRequest {
    var title: string
    var description: string
    const options: seq<OptionRequest>

    constructor (title: string, description: string, options: seq<OptionRequest>)
      ensures this.title == title && this.description == description && this.options == options
    {
      this.title := title;
      this.description := description;
      this.options := options;
    }

    ghost predicate HeaderOk()
      reads this
    {
      5 <= ByteLen(title) <= 300 && ByteLen(description) <= 1000
    }

    /** Accepts exactly the requests within the limits whose every option is admissible, and gives the expected
        options; a refusal for an option is for the first bad one. */
    method Validate(lower: char -> char) returns (r: Result<seq<PollOption>, Error>)
      modifies this
      ensures IsTrimmed(old(title), title) && IsTrimmed(old(description), description)
      ensures r.Success? <==>
                HeaderOk() && 2 <= |options| <= 10 && forall j: nat :: j < |options| ==> Admissible(lower, options, j)
      ensures r.Success? ==> AsExpected(lower, options, r.value, |options|)
      ensures r.Success? ==>
                && |r.value| == |options|
                && forall j :: 0 <= j < |options| ==> OptionOf(lower, options[j], j, r.value[j])
      ensures r == Failure(TitleTooShort) <==> ByteLen(title) < 5
      ensures r == Failure(TitleTooLong) <==> ByteLen(title) > 300
      ensures r == Failure(DescriptionTooLong) <==> 5 <= ByteLen(title) <= 300 && ByteLen(description) > 1000
      ensures r == Failure(TooFewOptions) <==> HeaderOk() && |options| < 2
      ensures r == Failure(TooManyOptions) <==> HeaderOk() && |options| > 10
      ensures r.Failure? && HeaderOk() && 2 <= |options| <= 10 ==>
                exists j: nat :: j < |options| && FirstBad(lower, options, j)
                  && r.error == if AllSpace(options[j].text) then EmptyText
                                else if ByteLen(Trim(options[j].text)) > 200 then TextTooLong
                                else DuplicateText
    {
      TrimIsTrimmed(title);
      TrimIsTrimmed(description);
      title := Trim(title);
      description := Trim(description);
      if ByteLen(title) < 5 { return Failure(TitleTooShort); }
      if ByteLen(title) > 300 { return Failure(TitleTooLong); }
      if ByteLen(description) > 1000 { return Failure(DescriptionTooLong); }
      if |options| < 2 { return Failure(TooFewOptions); }
      if |options| > 10 { return Failure(TooManyOptions); }
      r := BuildOptions(lower, options);
      assert options[..|options|] == options;
      BuiltExactly(lower, options, |options|);
      if r.Failure? {
        ghost var j := StoppedAtFirstBad(lower, options, |options|);
      }
    }
  }

  ghost predicate NoIdPrefix(lower: char -> char, requests: seq<OptionRequest>) {
    forall j: nat :: j < |requests| ==> !("id:" <= Lowered(lower, requests[j]))
  }

  lemma NoPrefixAdmissible(lower: char -> char, requests: seq<OptionRequest>, j: nat)
    requires NoIdPrefix(lower, requests) && j < |requests|
    ensures Claimed(lower, requests, j, Lowered(lower, requests[j])) <==>
              exists k :: 0 <= k < j && Lowered(lower, requests[k]) == Lowered(lower, requests[j])
  {
    if k: nat :| k < j && Claims(lower, requests, k, Lowered(lower, requests[j])) {
      assert "id:" <= "id:" + IdOf(lower, requests, k);
    } else if k: nat :| k < j && Lowered(lower, requests[k]) == Lowered(lower, requests[j]) {
      assert Claims(lower, requests, k, Lowered(lower, requests[j]));
    }
  }

  /** Option lists with no lower-cased text starting with "id:" are accepted exactly when every text is
      non-empty and short enough and the lower-cased texts are distinct. */
  lemma {:induction false} AcceptedExactly(lower: char -> char, requests: seq<OptionRequest>)
    requires NoIdPrefix(lower, requests)
    ensures Build(lower, requests).Going? <==>
              (forall j :: 0 <= j < |requests| ==> Fits(requests[j])) && DistinctLowered(lower, requests, |requests|)
  {
    assert requests[..|requests|] == requests;
    BuiltExactly(lower, requests, |requests|);
    forall j: nat | j < |requests|
      ensures Admissible(lower, requests, j) <==>
                (Fits(requests[j]) &&
                 !exists k :: 0 <= k < j && Lowered(lower, requests[k]) == Lowered(lower, requests[j]))
    {
      NoPrefixAdmissible(lower, requests, j);
    }
  }

  lemma PrefixLetters(lower: char -> char, text: string)
    ensures "id:" <= Lower(lower, text) ==>
              |text| >= 3 && lower(text[0]) == 'i' && lower(text[1]) == 'd' && lower(text[2]) == ':'
  {
    var s := Lower(lower, text);
    if "id:" <= s { assert s[0] == "id:"[0] && s[1] == "id:"[1] && s[2] == "id:"[2]; }
  }

  /** The same, letter by letter: with no text that spells "id:" first, a list is accepted exactly when every text
      fits and no two have the same letters in lower case. */
  lemma {:induction false} AcceptedByLetters(lower: char -> char, requests: seq<OptionRequest>)
    requires forall r :: r in requests ==>
               !(|Text(r)| >= 3 && lower(Text(r)[0]) == 'i' && lower(Text(r)[1]) == 'd' && lower(Text(r)[2]) == ':')
    ensures Build(lower, requests).Going? <==>
              && (forall r :: r in requests ==> !AllSpace(r.text) && ByteLen(Text(r)) <= 200)
              && forall i, j :: 0 <= i < j < |requests| ==>
                   !SameLetters(lower, Text(requests[i]), Text(requests[j]))
  {
    forall j: nat | j < |requests| ensures !("id:" <= Lowered(lower, requests[j])) {
      assert requests[j] in requests;
      PrefixLetters(lower, Text(requests[j]));
    }
    AcceptedExactly(lower, requests);
    forall r | r in requests ensures Fits(r) <==> !AllSpace(r.text) && ByteLen(Text(r)) <= 200 {
      TrimIsTrimmed(r.text);
    }
    forall i, j | 0 <= i < j < |requests|
      ensures Lowered(lower, requests[i]) == Lowered(lower, requests[j]) <==>
              SameLetters(lower, Text(requests[i]), Text(requests[j]))
    {
      SameLettersIff(lower, Text(requests[i]), Text(requests[j]));
    }
  }

  /** A text that fits and has the letters of an earlier accepted one is refused as a duplicate. */
  lemma {:induction false} SameLettersRefused(lower: char -> char, requests: seq<OptionRequest>, i: nat, j: nat)
    requires i < j < |requests| && At(lower, requests, j).Going? && Fits(requests[j])
    requires SameLetters(lower, Text(requests[i]), Text(requests[j]))
    ensures Build(lower, requests) == Stopped(DuplicateText)
  {
    AtStep(lower, requests, j);
    SeenIs(lower, requests, j);
    SameLettersIff(lower, Text(requests[i]), Text(requests[j]));
    assert SeenBy(lower, requests, At(lower, requests, j).options, i, Lowered(lower, requests[j]));
    StopsForGood(lower, requests, j + 1);
  }

  function Same(c: char): char { c }

  lemma SameText(s: string)
    ensures Lower(Same, s) == s
    ensures ' ' !in s ==> Slug(Same, s) == s
  {
    assert forall i :: 0 <= i < |s| ==> s[i] in s;
  }

  lemma FirstFoo()
    ensures Add(Same, {}, [], 0, OptionRequest("", "foo")) == Going({"foo", "id:foo"}, [PollOption("foo", "foo")])
  {
    TightTrim("foo");
    SameText("foo");
    ByteLenPush("", 'f');
    ByteLenPush("f", 'o');
    ByteLenPush("fo", 'o');
    assert "f" + ['o'] == "fo" && "fo" + ['o'] == "foo";
    assert "id:" + "foo" == "id:foo" && |"id:foo"| != |"foo"|;
  }

  lemma ByteLenPush(s: string, c: char)
    ensures ByteLen(s + [c]) == ByteLen(s) + Width(c)
  {
    assert (s + [c])[..|s|] == s;
  }

  lemma {:induction false} ByteLenAtMost(s: string)
    ensures ByteLen(s) <= 4 * |s|
    decreases |s|
  {
    if s != "" { ByteLenAtMost(s[..|s| - 1]); }
  }

  /** The shared set does reject a list whose texts are all different: "foo", then "id:foo". */
  lemma FalseDuplicate()
    ensures var requests := [OptionRequest("", "foo"), OptionRequest("", "id:foo")];
      Build(Same, requests) == Stopped(DuplicateText)
  {
    var requests := [OptionRequest("", "foo"), OptionRequest("", "id:foo")];
    FirstFoo();
    TightTrim("id:foo");
    SameText("id:foo");
    ByteLenAtMost("id:foo");
    AtStep(Same, requests, 0);
    AtStep(Same, requests, 1);
    assert requests[..2] == requests && requests[..0] == [];
  }

  // ---- generated IDs ------------------------------------------------------------------------

  ghost predicate NoneSupplied(requests: seq<OptionRequest>) {
    forall j: nat :: j < |requests| ==> requests[j].id == ""
  }

  /** The guard of the suffix branch: the ID that text `j` asks for is taken. */
  predicate Taken(lower: char -> char, requests: seq<OptionRequest>, j: nat)
    requires j < |requests| && At(lower, requests, j).Going?
  {
    "id:" + SlugAt(lower, requests, j) in At(lower, requests, j).seen
  }

  /** The ID one round of the loop gives to a request that brings none. */
  lemma AddedId(lower: char -> char, seen: set<string>, options: seq<PollOption>, i: nat, r: OptionRequest)
    requires r.id == "" && Add(lower, seen, options, i, r).Going?
    ensures |Add(lower, seen, options, i, r).options| == |options| + 1
    ensures var slug := Slug(lower, Text(r));
      Add(lower, seen, options, i, r).options[|options|].id == if "id:" + slug in seen then Suffixed(slug, i) else slug
  {
    assert |"id:" + Slug(lower, Text(r))| != |Lower(lower, Text(r))|;
  }

  /** Option `j` is settled by round `j`. */
  lemma {:induction false} SettledAt(lower: char -> char, requests: seq<OptionRequest>, j: nat)
    requires j < |requests| && Build(lower, requests).Going?
    ensures At(lower, requests, j).Going? && At(lower, requests, j + 1).Going?
    ensures |At(lower, requests, j).options| == j && |At(lower, requests, j + 1).options| == j + 1
    ensures |Build(lower, requests).options| == |requests|
    ensures Build(lower, requests).options[j] == At(lower, requests, j + 1).options[j]
  {
    assert requests[..|requests|] == requests;
    BuiltPrefix(lower, requests, j, |requests|);
    BuiltPrefix(lower, requests, j + 1, |requests|);
    BuiltTexts(lower, requests, j);
    BuiltTexts(lower, requests, j + 1);
    BuiltTexts(lower, requests, |requests|);
  }

  lemma IdIs(lower: char -> char, requests: seq<OptionRequest>, j: nat)
    requires j < |requests| && Build(lower, requests).Going? && requests[j].id == ""
    ensures At(lower, requests, j).Going? && |Build(lower, requests).options| == |requests|
    ensures Build(lower, requests).options[j].id ==
            if Taken(lower, requests, j) then Suffixed(SlugAt(lower, requests, j), j) else SlugAt(lower, requests, j)
    ensures Taken(lower, requests, j) ==> j > 0
  {
    SettledAt(lower, requests, j);
    AtStep(lower, requests, j);
    var before := At(lower, requests, j);
    AddedId(lower, before.seen, before.options, j, requests[j]);
    if j == 0 { assert requests[..0] == []; }
  }

  lemma {:induction false} EarlierIdSeen(lower: char -> char, requests: seq<OptionRequest>, i: nat, j: nat)
    requires i < j < |requests| && requests[i].id == "" && Build(lower, requests).Going?
    requires At(lower, requests, j).Going?
    requires |Build(lower, requests).options| == |requests|
    ensures "id:" + Build(lower, requests).options[i].id in At(lower, requests, j).seen
  {
    assert requests[..|requests|] == requests;
    BuiltPrefix(lower, requests, j, |requests|);
    SeenIs(lower, requests, j);
    assert SeenBy(lower, requests, At(lower, requests, j).options, i, "id:" + Build(lower, requests).options[i].id);
  }

  /** The later of two generated IDs was suffixed onto a slug that, so suffixed, is the earlier plain one. */
  ghost predicate ClashAt(lower: char -> char, requests: seq<OptionRequest>, i: nat, j: nat)
    requires i < j < |requests| && At(lower, requests, i).Going? && At(lower, requests, j).Going?
  {
    && !Taken(lower, requests, i) && Taken(lower, requests, j)
    && SlugAt(lower, requests, i) == Suffixed(SlugAt(lower, requests, j), j)
  }

  /** The ID request `j` brings, or the plain or suffixed slug. */
  function IdAt(lower: char -> char, requests: seq<OptionRequest>, j: nat): string
    requires j < |requests| && At(lower, requests, j).Going?
  {
    if requests[j].id != "" then requests[j].id
    else if Taken(lower, requests, j) then Suffixed(SlugAt(lower, requests, j), j)
    else SlugAt(lower, requests, j)
  }

  /** Requests `i` and `j` end up with one ID: both brought it, one brought what the other was given, or two
      generated ones clash. */
  ghost predicate Meets(lower: char -> char, requests: seq<OptionRequest>, i: nat, j: nat)
    requires i < j < |requests| && At(lower, requests, i).Going? && At(lower, requests, j).Going?
  {
    if requests[i].id == "" && requests[j].id == "" then ClashAt(lower, requests, i, j)
    else IdAt(lower, requests, i) == IdAt(lower, requests, j)
  }

  ghost predicate DistinctIds(options: seq<PollOption>) {
    forall i, j :: 0 <= i < j < |options| ==> options[i].id != options[j].id
  }

  lemma {:induction false} PrefixesGo(lower: char -> char, requests: seq<OptionRequest>)
    requires Build(lower, requests).Going?
    ensures |Build(lower, requests).options| == |requests|
    ensures forall j: nat :: j < |requests| ==> At(lower, requests, j).Going?
  {
    assert requests[..|requests|] == requests;
    BuiltTexts(lower, requests, |requests|);
    forall j: nat | j < |requests| ensures At(lower, requests, j).Going? {
      BuiltPrefix(lower, requests, j, |requests|);
    }
  }

  lemma {:induction false} BuiltIdAt(lower: char -> char, requests: seq<OptionRequest>, j: nat)
    requires j < |requests| && Build(lower, requests).Going?
    ensures At(lower, requests, j).Going? && |Build(lower, requests).options| == |requests|
    ensures Build(lower, requests).options[j].id == IdAt(lower, requests, j)
  {
    PrefixesGo(lower, requests);
    if requests[j].id == "" {
      IdIs(lower, requests, j);
    } else {
      assert requests[..|requests|] == requests;
      BuiltTexts(lower, requests, |requests|);
      assert OptionFrom(requests[j], Build(lower, requests).options[j]);
    }
  }

  /** Two generated IDs are equal exactly when they clash. */
  lemma {:induction false} GeneratedMeet(lower: char -> char, requests: seq<OptionRequest>, i: nat, j: nat)
    requires i < j < |requests| && Build(lower, requests).Going? && requests[i].id == "" && requests[j].id == ""
    ensures At(lower, requests, i).Going? && At(lower, requests, j).Going?
    ensures IdAt(lower, requests, i) == IdAt(lower, requests, j) <==> ClashAt(lower, requests, i, j)
  {
    BuiltIdAt(lower, requests, i);
    BuiltIdAt(lower, requests, j);
    EarlierIdSeen(lower, requests, i, j);
    IdIs(lower, requests, i);
    if Taken(lower, requests, i) && Taken(lower, requests, j) && IdAt(lower, requests, i) == IdAt(lower, requests, j) {
      SuffixTells(SlugAt(lower, requests, i), i, SlugAt(lower, requests, j), j);
    }
  }

  /** Two options of an accepted list, whatever IDs it brings, have one ID exactly when their requests meet. */
  lemma {:induction false} SameIdIff(lower: char -> char, requests: seq<OptionRequest>, i: nat, j: nat)
    requires i < j < |requests| && Build(lower, requests).Going?
    ensures At(lower, requests, i).Going? && At(lower, requests, j).Going?
    ensures |Build(lower, requests).options| == |requests|
    ensures Build(lower, requests).options[i].id == Build(lower, requests).options[j].id <==>
              Meets(lower, requests, i, j)
  {
    BuiltIdAt(lower, requests, i);
    BuiltIdAt(lower, requests, j);
    if requests[i].id == "" && requests[j].id == "" { GeneratedMeet(lower, requests, i, j); }
  }

  /** The option IDs of an accepted list, brought or generated, are pairwise distinct if and only if no two requests
      meet. */
  lemma {:induction false} IdsDistinctIff(lower: char -> char, requests: seq<OptionRequest>)
    requires Build(lower, requests).Going?
    ensures forall j: nat :: j < |requests| ==> At(lower, requests, j).Going?
    ensures DistinctIds(Build(lower, requests).options) <==>
              forall i: nat, j: nat :: i < j < |requests| ==> !Meets(lower, requests, i, j)
  {
    PrefixesGo(lower, requests);
    var options := Build(lower, requests).options;
    forall i: nat, j: nat | i < j < |requests|
      ensures options[i].id == options[j].id <==> Meets(lower, requests, i, j)
    {
      SameIdIff(lower, requests, i, j);
    }
  }

  ghost predicate EndsInDashXs(s: string) { exists t: string, n: nat :: n > 0 && s == Suffixed(t, n) }

  /** In particular they are distinct when no slug ends in a dash and one or more x. */
  lemma {:induction false} PlainSlugsDistinct(lower: char -> char, requests: seq<OptionRequest>)
    requires NoneSupplied(requests) && Build(lower, requests).Going?
    requires forall i: nat :: i < |requests| ==> !EndsInDashXs(SlugAt(lower, requests, i))
    ensures DistinctIds(Build(lower, requests).options)
  {
    IdsDistinctIff(lower, requests);
    forall i: nat, j: nat | i < j < |requests|
      ensures SlugAt(lower, requests, i) != Suffixed(SlugAt(lower, requests, j), j)
    {
      assert !EndsInDashXs(SlugAt(lower, requests, i));
    }
  }

  function SharedRequests(): seq<OptionRequest> {
    [OptionRequest("", "a-b-xx"), OptionRequest("", "a b"), OptionRequest("", "a-b")]
  }

  lemma ShortText(s: string)
    requires 0 < |s| <= 50 && Tight(s)
    ensures var r := OptionRequest("", s); Text(r) == s && Lowered(Same, r) == s && Fits(r)
  {
    TightTrim(s);
    SameText(s);
    ByteLenAtMost(s);
  }

  lemma SharedTexts()
    ensures forall r :: r in SharedRequests() ==> Text(r) == r.text && Lowered(Same, r) == r.text && Fits(r)
  {
    var a, b, c := "a-b-xx", "a b", "a-b";
    assert |a| == 6 && |b| == 3 && |c| == 3;
    ShortText(a);
    ShortText(b);
    ShortText(c);
  }

  lemma ThreeDiffer(lower: char -> char, requests: seq<OptionRequest>, a: string, b: string, c: string)
    requires |requests| == 3 && a != b && b != c && a != c && !("id:" <= a) && !("id:" <= b) && !("id:" <= c)
    requires Lowered(lower, requests[0]) == a && Lowered(lower, requests[1]) == b && Lowered(lower, requests[2]) == c
    ensures DistinctLowered(lower, requests, 3) && NoIdPrefix(lower, requests)
  {
  }

  lemma Different(a: string, b: string, c: string)
    requires a == "a-b-xx" && b == "a b" && c == "a-b"
    ensures a != b && b != c && a != c && !("id:" <= a) && !("id:" <= b) && !("id:" <= c)
  {
    assert |a| == 6 && |b| == 3 && |c| == 3 && b[1] != c[1] && a[0] == b[0] == c[0] == 'a';
  }

  lemma SharedAccepted()
    ensures Build(Same, SharedRequests()).Going?
    ensures forall r :: r in SharedRequests() ==> Text(r) == r.text && Lowered(Same, r) == r.text
  {
    var requests := SharedRequests();
    SharedTexts();
    assert requests[0] in requests && requests[1] in requests && requests[2] in requests;
    Different(requests[0].text, requests[1].text, requests[2].text);
    ThreeDiffer(Same, requests, requests[0].text, requests[1].text, requests[2].text);
    AcceptedExactly(Same, requests);
  }

  /** The clash does happen: "a-b-xx", "a b", "a-b" all differ, and the first and last get one ID. */
  lemma SharedId()
    ensures var built := Build(Same, SharedRequests());
      built.Going? && |built.options| == 3 && built.options[0].id == built.options[2].id
  {
    var requests := SharedRequests();
    SharedAccepted();
    SlugsOfShared();
    assert requests[0] in requests && requests[1] in requests && requests[2] in requests;
    IdIs(Same, requests, 0);
    IdIs(Same, requests, 1);
    IdIs(Same, requests, 2);
    SecondNotTaken();
    SameIdIff(Same, requests, 1, 2);
    assert |Suffixed("a-b", 2)| != |"a-b"|;
  }

  lemma SecondNotTaken()
    requires Build(Same, SharedRequests()).Going? && At(Same, SharedRequests(), 1).Going?
    requires forall r :: r in SharedRequests() ==> Text(r) == r.text && Lowered(Same, r) == r.text
    ensures !Taken(Same, SharedRequests(), 1)
  {
    var requests := SharedRequests();
    SlugsOfShared();
    SeenIs(Same, requests, 1);
    IdIs(Same, requests, 0);
    assert requests[..3] == requests;
    BuiltPrefix(Same, requests, 1, 3);
    var options := At(Same, requests, 1).options;
    assert requests[0] in requests && requests[1] in requests;
    assert options[0].id == "a-b-xx";
    var s := "id:" + SlugAt(Same, requests, 1);
    assert s[0] == 'i' && |s| == 6 && |"id:" + options[0].id| == 9;
    assert !SeenBy(Same, requests, options, 0, s);
  }

  lemma SlugsOfShared()
    ensures Slug(Same, "a-b-xx") == "a-b-xx" == Suffixed("a-b", 2)
    ensures Slug(Same, "a b") == "a-b" == Slug(Same, "a-b")
  {
    SameText("a-b-xx");
    SameText("a-b");
    assert Repeat('x', 2) == "xx";
  }

  /** Nothing compares the IDs that requests bring: "foo" and "bar", both under the ID "x". */
  lemma SuppliedId()
    ensures var requests := [OptionRequest("x", "foo"), OptionRequest("x", "bar")];
      Build(Same, requests) == Going({"foo", "bar"}, [PollOption("x", "foo"), PollOption("x", "bar")])
  {
    var requests := [OptionRequest("x", "foo"), OptionRequest("x", "bar")];
    ShortText("foo");
    ShortText("bar");
    assert "foo"[0] == 'f' && "bar"[0] == 'b';
    AtStep(Same, requests, 0);
    AtStep(Same, requests, 1);
    assert requests[..2] == requests && requests[..0] == [];
  }

  // ---- votes find the generated IDs ---------------------------------------------------------

  lemma GeneratedIdTight(lower: char -> char, requests: seq<OptionRequest>, j: nat)
    requires LowerOk(lower) && Build(lower, requests).Going? && j < |requests| && requests[j].id == ""
    ensures j < |Build(lower, requests).options|
    ensures Build(lower, requests).options[j].id != "" && Tight(Build(lower, requests).options[j].id)
  {
    IdIs(lower, requests, j);
    assert requests[..|requests|] == requests;
    AcceptedAreDistinct(lower, requests, |requests|);
    assert Fits(requests[j]);
    TrimTight(requests[j].text);
    SlugTight(lower, Text(requests[j]));
  }

  class CastVoteRequest {
    var optionId: string
    var voterToken: string

    constructor (optionId: string, voterToken: string)
      ensures this.optionId == optionId && this.voterToken == voterToken
    {
      this.optionId := optionId;
      this.voterToken := voterToken;
    }

    /** Accepts exactly a vote with some option and a token of 8 to 128 bytes, once the spaces around them are
        gone; a second validation changes nothing more. */
    method Validate() returns (err: Option<Error>)
      modifies this
      ensures IsTrimmed(old(optionId), optionId) && IsTrimmed(old(voterToken), voterToken)
      ensures err.None? <==> !AllSpace(old(optionId)) && 8 <= ByteLen(voterToken) <= 128
      ensures err == Some(OptionIdMissing) <==> AllSpace(old(optionId))
      ensures err == Some(TokenMissing) <==> !AllSpace(old(optionId)) && AllSpace(old(voterToken))
      ensures err.Some? ==> err.value in {OptionIdMissing, TokenMissing, TokenInvalid}
    {
      TrimIsTrimmed(optionId);
      TrimIsTrimmed(voterToken);
      optionId := Trim(optionId);
      voterToken := Trim(voterToken);
      if optionId == "" { return Some(OptionIdMissing); }
      if voterToken == "" { return Some(TokenMissing); }
      if ByteLen(voterToken) < 8 || ByteLen(voterToken) > 128 { return Some(TokenInvalid); }
      err := None;
    }
  }

  /** Every generated ID of an accepted list spells its trimmed text in lower case with dashes for spaces, alone or
      with a dash and its place's run of x; so it holds no plain space. */
  lemma {:induction false} GeneratedIdSpells(lower: char -> char, requests: seq<OptionRequest>, j: nat)
    requires LowerOk(lower) && Build(lower, requests).Going? && j < |requests| && requests[j].id == ""
    ensures j < |Build(lower, requests).options|
    ensures var o := Build(lower, requests).options[j]; var text := o.text;
      && IsTrimmed(requests[j].text, text)
      && |o.id| >= |text|
      && (forall i :: 0 <= i < |text| ==> o.id[i] == if text[i] == ' ' then lower('-') else lower(text[i]))
      && (|o.id| == |text|
          || (|o.id| == |text| + 1 + j && o.id[|text|] == '-' && forall i :: |text| < i < |o.id| ==> o.id[i] == 'x'))
      && ' ' !in o.id
  {
    assert requests[..|requests|] == requests;
    OptionsOf(lower, requests, |requests|);
    var o := Build(lower, requests).options[j];
    assert OptionOf(lower, requests[j], j, o);
    SpelledHasNoSpace(lower, o.text, j, o.id);
  }

  /** A vote naming a generated ID survives the vote validator's trim and is found among the options. */
  lemma GeneratedIdFound(lower: char -> char, requests: seq<OptionRequest>, j: nat)
    requires LowerOk(lower) && Build(lower, requests).Going? && j < |requests| && requests[j].id == ""
    ensures j < |Build(lower, requests).options|
    ensures var id := Build(lower, requests).options[j].id;
      id != "" && Trim(id) == id && id in Ids(Build(lower, requests).options)
  {
    GeneratedIdTight(lower, requests, j);
    TightTrim(Build(lower, requests).options[j].id);
  }

  /** An option can be voted for, through the validator, if and only if its ID is non-empty and tight. */
  lemma VotableIff(id: string)
    ensures (exists sent :: Trim(sent) == id && Trim(sent) != "") <==> id != "" && Tight(id)
  {
    if sent :| Trim(sent) == id && Trim(sent) != "" {
      TrimTight(sent);
    }
    if id != "" && Tight(id) {
      TightTrim(id);
      assert Trim(id) == id && Trim(id) != "";
    }
  }
}
