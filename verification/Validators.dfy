/** Poll creation and vote requests: duplicate detection, option-ID generation, and how the validators fit
    the checks of the services. */
module Validators {
  import opened Models
  import opened Texts

  datatype OptionRequest = OptionRequest(id: string, text: string)

  datatype Error = TitleTooShort | TitleTooLong | DescriptionTooLong | TooFewOptions | TooManyOptions
                 | EmptyText | TextTooLong | DuplicateText | OptionIdMissing | TokenMissing | TokenInvalid

  /** The state of the loop: one set holds both lower-cased texts and "id:"-prefixed generated IDs. */
  datatype Progress = Going(seen: set<string>, options: seq<PollOption>) | Stopped(error: Error)

  function Text(r: OptionRequest): string { Trim(r.text) }

  /** The ID given to text number `i`, with `seen` holding its own lower-cased text already. */
  function NewId(lower: char -> char, seen: set<string>, i: nat, text: string): string {
    var slug := Slug(lower, text);
    if "id:" + slug in seen then Suffixed(slug, i) else slug
  }

  function Add(lower: char -> char, seen: set<string>, options: seq<PollOption>, i: nat, r: OptionRequest): Progress {
    var text := Text(r);
    var lowered := Lower(lower, text);
    if text == "" then Stopped(EmptyText)
    else if ByteLen(text) > 200 then Stopped(TextTooLong)
    else if lowered in seen then Stopped(DuplicateText)
    else if r.id != "" then Going(seen + {lowered}, options + [PollOption(r.id, text)])
    else
      var id := NewId(lower, seen + {lowered}, i, text);
      Going(seen + {lowered, "id:" + id}, options + [PollOption(id, text)])
  }

  function Build(lower: char -> char, requests: seq<OptionRequest>): Progress {
    if requests == [] then Going({}, []) else
      var n := |requests| - 1;
      match Build(lower, requests[..n])
      case Stopped(e) => Stopped(e)
      case Going(seen, options) => Add(lower, seen, options, n, requests[n])
  }

  /** Option number `j` has the trimmed text of its request, and the ID it brings or one that spells the text. */
  ghost predicate OptionOf(lower: char -> char, r: OptionRequest, j: nat, o: PollOption) {
    && IsTrimmed(r.text, o.text)
    && if r.id != "" then o.id == r.id else Spells(lower, o.text, j, o.id)
  }

  /** The loop over the requested options. */
  method BuildOptions(lower: char -> char, requests: seq<OptionRequest>) returns (r: Result<seq<PollOption>, Error>)
    ensures r.Success? ==>
              && |r.value| == |requests|
              && forall j :: 0 <= j < |requests| ==> OptionOf(lower, requests[j], j, r.value[j])
    ensures r.Success? <==> Build(lower, requests).Going?
    ensures r.Success? ==> r.value == Build(lower, requests).options
    ensures r.Failure? ==> r.error == Build(lower, requests).error
  {
    var seen: set<string> := {};
    var built: seq<PollOption> := [];
    for i := 0 to |requests|
      invariant Build(lower, requests[..i]) == Going(seen, built)
    {
      var opt := requests[i];
      AtStep(lower, requests, i);
      if At(lower, requests, i + 1).Stopped? { StopsForGood(lower, requests, i + 1); }
      var text := Trim(opt.text);
      if text == "" { return Failure(EmptyText); }
      if ByteLen(text) > 200 { return Failure(TextTooLong); }
      var lowered := Lower(lower, text);
      if lowered in seen { return Failure(DuplicateText); }
      seen := seen + {lowered};
      var id := opt.id;
      if id == "" {
        id := Slug(lower, text);
        if "id:" + id in seen { id := Suffixed(id, i); }
        seen := seen + {"id:" + id};
      }
      built := built + [PollOption(id, text)];
    }
    assert requests[..|requests|] == requests;
    OptionsOf(lower, requests, |requests|);
    r := Success(built);
  }

  /** One round of the loop. */
  lemma AddsOption(lower: char -> char, seen: set<string>, options: seq<PollOption>, i: nat, r: OptionRequest)
    requires Add(lower, seen, options, i, r).Going?
    ensures var after := Add(lower, seen, options, i, r).options;
      |after| == |options| + 1 && after[..|options|] == options && OptionOf(lower, r, i, after[|options|])
  {
    TrimIsTrimmed(r.text);
    SlugSpells(lower, Text(r), i);
  }

  lemma {:induction false} OptionsOf(lower: char -> char, requests: seq<OptionRequest>, n: nat)
    requires n <= |requests| && At(lower, requests, n).Going?
    ensures |At(lower, requests, n).options| == n
    ensures forall j :: 0 <= j < n ==> OptionOf(lower, requests[j], j, At(lower, requests, n).options[j])
    decreases n
  {
    if n > 0 {
      AtStep(lower, requests, n - 1);
      OptionsOf(lower, requests, n - 1);
      var before, after := At(lower, requests, n - 1), At(lower, requests, n).options;
      AddsOption(lower, before.seen, before.options, n - 1, requests[n - 1]);
      forall j | 0 <= j < n ensures OptionOf(lower, requests[j], j, after[j]) {
        if j < n - 1 { assert after[j] == after[..n - 1][j]; }
      }
    }
  }

  lemma {:induction false} StopsForGood(lower: char -> char, requests: seq<OptionRequest>, n: nat)
    requires n <= |requests| && Build(lower, requests[..n]).Stopped?
    ensures Build(lower, requests) == Build(lower, requests[..n])
    decreases |requests|
  {
    if n == |requests| {
      assert requests[..n] == requests;
    } else {
      assert requests[..|requests| - 1][..n] == requests[..n];
      StopsForGood(lower, requests[..|requests| - 1], n);
    }
  }

  // ---- the service's own check --------------------------------------------------------------

  ghost predicate DistinctTexts(options: seq<PollOption>) {
    forall i, j :: 0 <= i < j < |options| ==> options[i].text != options[j].text
  }

  method ValidateOptions(options: seq<PollOption>) returns (err: Option<Error>)
    ensures err.None? <==> 2 <= |options| <= 10 && DistinctTexts(options)
    ensures err == Some(TooFewOptions) <==> |options| < 2
    ensures err == Some(TooManyOptions) <==> |options| > 10
    ensures err == Some(DuplicateText) <==> 2 <= |options| <= 10 && !DistinctTexts(options)
  {
    if |options| < 2 { return Some(TooFewOptions); }
    if |options| > 10 { return Some(TooManyOptions); }
    var seen: set<string> := {};
    for i := 0 to |options|
      invariant forall t :: t in seen <==> exists j :: 0 <= j < i && options[j].text == t
      invariant DistinctTexts(options[..i])
    {
      if options[i].text in seen { return Some(DuplicateText); }
      seen := seen + {options[i].text};
    }
    assert options[..|options|] == options;
    err := None;
  }

  // ---- what the loop has seen ---------------------------------------------------------------

  function Lowered(lower: char -> char, r: OptionRequest): string { Lower(lower, Text(r)) }

  /** The progress after the first `n` requests. */
  function At(lower: char -> char, requests: seq<OptionRequest>, n: nat): Progress
    requires n <= |requests|
  {
    Build(lower, requests[..n])
  }

  lemma AtStep(lower: char -> char, requests: seq<OptionRequest>, n: nat)
    requires n < |requests|
    ensures At(lower, requests, n + 1) ==
            match At(lower, requests, n)
            case Stopped(e) => Stopped(e)
            case Going(seen, options) => Add(lower, seen, options, n, requests[n])
  {
    assert requests[..n + 1][..n] == requests[..n];
  }

  /** Entry `s` of the seen set stems from request `k`: its lower-cased text or its generated ID. */
  ghost predicate SeenBy(lower: char -> char, requests: seq<OptionRequest>, options: seq<PollOption>, k: nat, s: string)
    requires k < |requests| && k < |options|
  {
    s == Lowered(lower, requests[k]) || (requests[k].id == "" && s == "id:" + options[k].id)
  }

  /** What one accepted round adds to the set. */
  lemma SeenAdds(lower: char -> char, seen: set<string>, options: seq<PollOption>, i: nat, r: OptionRequest, s: string)
    requires Add(lower, seen, options, i, r).Going?
    ensures var after := Add(lower, seen, options, i, r);
      && |after.options| == |options| + 1 && after.options[..|options|] == options
      && (s in after.seen <==>
            s in seen || s == Lowered(lower, r) || (r.id == "" && s == "id:" + after.options[|options|].id))
  {
  }

  lemma SeenStep(lower: char -> char, requests: seq<OptionRequest>, m: nat, before: Progress, after: Progress,
                 s: string)
    requires m < |requests| && before == At(lower, requests, m) && after == At(lower, requests, m + 1)
    requires before.Going? && after.Going? && |before.options| == m
    requires s in before.seen <==> exists k: nat :: k < m && SeenBy(lower, requests, before.options, k, s)
    ensures |after.options| == m + 1
    ensures s in after.seen <==> exists k: nat :: k < m + 1 && SeenBy(lower, requests, after.options, k, s)
  {
    AtStep(lower, requests, m);
    SeenAdds(lower, before.seen, before.options, m, requests[m], s);
    assert forall k: nat :: k < m ==> after.options[k] == after.options[..m][k] == before.options[k];
    if s in before.seen {
      var k: nat :| k < m && SeenBy(lower, requests, before.options, k, s);
      assert SeenBy(lower, requests, after.options, k, s);
    } else if s in after.seen {
      assert SeenBy(lower, requests, after.options, m, s);
    } else if k: nat :| k < m + 1 && SeenBy(lower, requests, after.options, k, s) {
      assert k < m ==> SeenBy(lower, requests, before.options, k, s);
    }
  }

  lemma {:induction false} SeenIs(lower: char -> char, requests: seq<OptionRequest>, n: nat)
    requires n <= |requests| && At(lower, requests, n).Going?
    ensures |At(lower, requests, n).options| == n
    ensures forall s :: s in At(lower, requests, n).seen <==>
              exists k: nat :: k < n && SeenBy(lower, requests, At(lower, requests, n).options, k, s)
    decreases n
  {
    if n > 0 {
      AtStep(lower, requests, n - 1);
      SeenIs(lower, requests, n - 1);
      var before, after := At(lower, requests, n - 1), At(lower, requests, n);
      SeenStep(lower, requests, n - 1, before, after, "");
      forall s ensures s in after.seen <==> exists k: nat :: k < n && SeenBy(lower, requests, after.options, k, s) {
        SeenStep(lower, requests, n - 1, before, after, s);
      }
    }
  }
}
