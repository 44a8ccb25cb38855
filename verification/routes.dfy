/** The application's route table and what it resolves the recognised paths to. */
module Routes {
  import opened Base
  import opened Text
  import opened Lists
  import opened Router

  /** The views the table dispatches to. */
  datatype Page =
    | Home | Login | Signup | AdminAgenda
    | ManageChallenges | CreateChallenge | EditChallenge
    | ManageAssignments | CreateAssignment | EditAssignment | ViewAssignment
    | GiveCredits

  /** The table the start-up script builds, in registration order. */
  const AppTable: seq<(string, Page)> := [
    ("home", Home),
    ("login", Login),
    ("signup", Signup),
    ("agenda", AdminAgenda),
    ("challenges/manage", ManageChallenges),
    ("challenges/create", CreateChallenge),
    ("challenges/edit/:id", EditChallenge),
    ("assignments/manage", ManageAssignments),
    ("assignments/create", CreateAssignment),
    ("assignments/edit/:id", EditAssignment),
    ("assignments/view/:id", ViewAssignment),
    ("credits/give", GiveCredits)
  ]

  /** A run of `registerRoute` calls, in order. */
  function RegisterAll<H>(r: Registry<H>, calls: seq<(string, H)>): (r': Registry<H>)
    requires WellFormed(r)
    ensures WellFormed(r')
    decreases |calls|
  {
    if |calls| == 0 then r
    else RegisterAll(Register(r, calls[0].0, calls[0].1), calls[1..])
  }

  /** Registering patterns that are distinct and new appends them in call order. */
  lemma {:induction false} RegisterAllFresh<H>(r: Registry<H>, calls: seq<(string, H)>)
    requires WellFormed(r)
    requires forall i, j :: 0 <= i < j < |calls| ==> calls[i].0 != calls[j].0
    requires forall i, k :: 0 <= i < |calls| && 0 <= k < |r.entries| ==> calls[i].0 != r.entries[k].0
    ensures RegisterAll(r, calls).entries == r.entries + calls
    decreases |calls|
  {
    if |calls| > 0 {
      var c := calls[0];
      var rest := calls[1..];
      assert forall k :: 0 <= k < |r.entries| ==> r.entries[k].0 != c.0;
      var r1 := Register(r, c.0, c.1);
      assert r1.entries == r.entries + [c];
      assert forall i, j :: 0 <= i < j < |rest| ==> rest[i].0 != rest[j].0 by {
        forall i, j | 0 <= i < j < |rest|
          ensures rest[i].0 != rest[j].0
        {
          assert rest[i] == calls[i + 1] && rest[j] == calls[j + 1];
        }
      }
      forall i, k | 0 <= i < |rest| && 0 <= k < |r1.entries|
        ensures rest[i].0 != r1.entries[k].0
      {
        assert rest[i] == calls[i + 1];
        if k == |r.entries| {
          assert r1.entries[k] == calls[0];
        } else {
          assert r1.entries[k] == r.entries[k];
        }
      }
      RegisterAllFresh(r1, rest);
      AppendCons(r.entries, calls);
    }
  }

  lemma AppendCons<T>(a: seq<T>, s: seq<T>)
    requires |s| > 0
    ensures a + [s[0]] + s[1..] == a + s
  {
  }

  /** The route table the start-up script leaves behind. */
  const AppRoutes: Registry<Page> := Registry(AppTable)

  /** No pattern is registered twice. */
  lemma AppPatternsDistinct()
    ensures forall i, j :: 0 <= i < j < |AppTable| ==> AppTable[i].0 != AppTable[j].0
  {
    forall i, j | 0 <= i < j < |AppTable|
      ensures AppTable[i].0 != AppTable[j].0
    {
      var a, b := AppTable[i].0, AppTable[j].0;
      // Patterns differ in length, first letter or next-to-last letter, except
      // `assignments/edit/:id` and `assignments/view/:id`, whose 13th letters differ.
      assert |a| != |b| || a[0] != b[0] || a[|a| - 2] != b[|b| - 2] || (|a| == 20 && a[12] != b[12]);
    }
  }

  /** The twelve `registerRoute` calls, run from the empty object, build exactly
      `AppRoutes`: every pattern is new when it is registered, so the table lists
      them in call order. */
  lemma AppRoutesRegistered(empty: Registry<Page>)
    requires empty.entries == []
    ensures RegisterAll(empty, AppTable) == AppRoutes
    ensures WellFormed(AppRoutes)
  {
    AppPatternsDistinct();
    RegisterAllFromEmpty(empty, AppTable);
  }

  lemma RegisterAllFromEmpty<H>(empty: Registry<H>, calls: seq<(string, H)>)
    requires empty.entries == []
    requires forall i, j :: 0 <= i < j < |calls| ==> calls[i].0 != calls[j].0
    ensures RegisterAll(empty, calls) == Registry(calls)
    ensures WellFormed(Registry(calls))
  {
    RegisterAllFresh(empty, calls);
    assert empty.entries + calls == calls;
  }

  /** The `/`-segments of each pattern of the table. */
  const Segments: seq<seq<string>> := [
    ["home"], ["login"], ["signup"], ["agenda"],
    ["challenges", "manage"], ["challenges", "create"], ["challenges", "edit", ":id"],
    ["assignments", "manage"], ["assignments", "create"], ["assignments", "edit", ":id"],
    ["assignments", "view", ":id"], ["credits", "give"]
  ]

  /** Where the table's three `:id` patterns sit. */
  predicate HasIdCapture(k: nat)
  {
    k == 6 || k == 9 || k == 10
  }

  /** Each pattern is the `/`-join of its segments. */
  lemma AppSegmentsJoin(k: nat)
    requires k < |AppTable|
    ensures Join(Segments[k], '/') == AppTable[k].0
  {
    if k < 6 {
      AppSegmentsJoinLow(k);
    } else {
      AppSegmentsJoinHigh(k);
    }
  }

  lemma AppSegmentsJoinLow(k: nat)
    requires k < 6
    ensures Join(Segments[k], '/') == AppTable[k].0
  {
  }

  lemma AppSegmentsJoinHigh(k: nat)
    requires 6 <= k < |AppTable|
    ensures Join(Segments[k], '/') == AppTable[k].0
  {
  }

  /** The `/`-segments of every pattern of the table. */
  lemma AppSegments(k: nat)
    requires k < |AppTable|
    ensures Split(AppTable[k].0, '/') == Segments[k]
  {
    AppSegmentsJoin(k);
    SplitJoin(Segments[k], '/');
  }

  /** The three `:id` patterns have three segments, two literal ones first;
      the others have at most two segments and no capture. */
  lemma AppShape(k: nat)
    requires k < |AppTable|
    ensures HasIdCapture(k) ==> |Segments[k]| == 3 && Segments[k][2] == ":id" &&
                                !IsCapture(Segments[k][0]) && !IsCapture(Segments[k][1])
    ensures !HasIdCapture(k) ==> 1 <= |Segments[k]| <= 2 &&
                                 forall i :: 0 <= i < |Segments[k]| ==> !IsCapture(Segments[k][i])
  {
  }

  lemma StaticCaptureFree(k: nat)
    requires k < |AppTable| && !HasIdCapture(k)
    ensures CaptureFree(AppTable[k].0)
  {
    AppSegments(k);
    AppShape(k);
  }

  /** A canonical array index ("0", "1", ... below 2^32 - 1): JavaScript
      enumerates such keys before all others, in numeric order. */
  predicate IsArrayIndex(key: string)
  {
    |key| >= 1 && AllDigits(key) && (key[0] != '0' || |key| == 1) && DigitsValue(key) < 0xFFFF_FFFF
  }

  /** No pattern of the table is an array index, so its enumeration order is
      its registration order. */
  lemma AppPatternsAreNotIndices()
    ensures forall k :: 0 <= k < |AppTable| ==> !IsArrayIndex(AppTable[k].0)
  {
    forall k | 0 <= k < |AppTable|
      ensures !IsDigit(AppTable[k].0[0])
    {
    }
  }

  /** A pattern before position `k` is skipped by a path that a pattern with a
      different first-or-second segment, or a different segment count, fits. */
  lemma EarlierSkipped(j: nat, path: string, decode: Decoder, xs: seq<string>)
    requires j < |AppTable| && Split(path, '/') == xs
    requires !HasIdCapture(j) ==> AppTable[j].0 != path
    requires HasIdCapture(j) ==> |xs| != 3 || Segments[j][0] != xs[0] || Segments[j][1] != xs[1]
    ensures MatchPattern(AppTable[j].0, path, decode).Mismatch?
  {
    AppSegments(j);
    AppShape(j);
    if !HasIdCapture(j) {
      StaticCaptureFree(j);
      CaptureFreeMatch(AppTable[j].0, path, decode);
    }
  }

  /** Every literal route resolves to its own page with no parameters. */
  lemma ResolveStatic(k: nat, decode: Decoder)
    requires k < |AppTable| && !HasIdCapture(k)
    ensures Resolve(AppRoutes, AppTable[k].0, decode) == Found(AppTable[k].1, map[])
  {
    var path := AppTable[k].0;
    var xs := Split(path, '/');
    AppSegments(k);
    AppShape(k);
    StaticCaptureFree(k);
    CaptureFreeMatch(path, path, decode);
    forall j | 0 <= j < k
      ensures !Unskipped<Page>(path, decode)(AppTable[j])
    {
      AppPatternsDistinct();
      EarlierSkipped(j, path, decode, xs);
    }
    FindIndexUnique(AppTable, Unskipped(path, decode), Some(k));
  }

  lemma IdPatternJoin(k: nat)
    requires k < |AppTable| && HasIdCapture(k)
    ensures AppTable[k].0 == Join([Segments[k][0], Segments[k][1], ":" + "id"], '/')
    ensures '/' !in Segments[k][0] && '/' !in Segments[k][1]
    ensures !IsCapture(Segments[k][0]) && !IsCapture(Segments[k][1])
  {
    AppSegmentsJoin(k);
    assert ":" + "id" == ":id" == Segments[k][2];
    assert [Segments[k][0], Segments[k][1], ":" + "id"] == Segments[k];
  }

  /** The path `first/second/id` that a `:id` route's page navigates to. */
  function IdPath(k: nat, id: string): string
    requires k < |AppTable| && HasIdCapture(k)
  {
    Join([Segments[k][0], Segments[k][1], id], '/')
  }

  lemma SkippedBeforeIdRoute(j: nat, k: nat, id: string, decode: Decoder)
    requires j < k < |AppTable| && HasIdCapture(k) && '/' !in id
    ensures MatchPattern(AppTable[j].0, IdPath(k, id), decode).Mismatch?
  {
    var a, b := Segments[k][0], Segments[k][1];
    AppShape(j);
    if HasIdCapture(j) {
      IdPatternJoin(j);
      IdPatternJoin(k);
      assert Segments[j][0] != a || Segments[j][1] != b;
      MatchTwoLiteralsThenCapture(Segments[j][0], Segments[j][1], "id", a, b, id, decode);
    } else {
      IdPatternJoin(k);
      SplitJoin([a, b, id], '/');
      AppSegments(j);
    }
  }

  /** An `:id` route binds `id` to the decoded last segment, or raises the
      decoder's exception; no earlier pattern intercepts it. */
  lemma ResolveWithId(k: nat, id: string, decode: Decoder)
    requires k < |AppTable| && HasIdCapture(k) && '/' !in id
    ensures decode(id).Some? ==> Resolve(AppRoutes, IdPath(k, id), decode) == Found(AppTable[k].1, map["id" := decode(id).value])
    ensures decode(id).None? ==> Resolve(AppRoutes, IdPath(k, id), decode) == Threw
  {
    SkippedBeforeIdRouteAll(k, id, decode);
    IdRouteMatch(k, id, decode);
    ResolveAt(AppTable, IdPath(k, id), decode, k);
  }

  /** An `:id` pattern matches its own path shape, binding `id`. */
  lemma IdRouteMatch(k: nat, id: string, decode: Decoder)
    requires k < |AppTable| && HasIdCapture(k) && '/' !in id
    ensures MatchPattern(AppTable[k].0, IdPath(k, id), decode) ==
              match decode(id)
              case None => DecodeFailed
              case Some(v) => Bound(map["id" := v])
  {
    var a, b := Segments[k][0], Segments[k][1];
    IdPatternJoin(k);
    MatchTwoLiteralsThenCapture(a, b, "id", a, b, id, decode);
  }

  lemma SkippedBeforeIdRouteAll(k: nat, id: string, decode: Decoder)
    requires k < |AppTable| && HasIdCapture(k) && '/' !in id
    ensures forall j :: 0 <= j < k ==> MatchPattern(AppTable[j].0, IdPath(k, id), decode).Mismatch?
  {
    forall j | 0 <= j < k
      ensures MatchPattern(AppTable[j].0, IdPath(k, id), decode).Mismatch?
    {
      SkippedBeforeIdRoute(j, k, id, decode);
    }
  }

  /** Navigating to the landing path shows the login page. */
  lemma LandingShowsLogin(decode: Decoder)
    ensures Render(AppRoutes, Navigate(Landing), decode) == Show(Login, map[])
  {
    NavigateThenGetPath(Landing);
    assert GetPath(Navigate(Landing)) == AppTable[1].0;
    ResolveStatic(1, decode);
  }

  /** An empty fragment shows the login page. */
  lemma EmptyFragmentShowsLogin(decode: Decoder)
    ensures Render(AppRoutes, "", decode) == Show(Login, map[])
  {
    ResolveStatic(1, decode);
  }

  /** The fallback navigation lands on a path the table resolves to the login
      page, so an unmatched path costs exactly one redirect. */
  lemma RedirectLandsOnLogin(hash: string, decode: Decoder)
    requires Render(AppRoutes, hash, decode).Redirect?
    ensures Render(AppRoutes, Render(AppRoutes, hash, decode).hash, decode) == Show(Login, map[])
  {
    LandingShowsLogin(decode);
  }
}
