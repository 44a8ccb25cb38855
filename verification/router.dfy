/** The hash router: a registry of path patterns, the current path taken from the
    location fragment, `:name` pattern matching, and dispatch with a fallback to
    the landing page. Handlers are left abstract (type parameter `H`). */
module Router {
  import opened Base
  import opened Text
  import opened Lists

  /** The landing path used for an empty fragment and for unmatched paths. */
  const Landing: string := "login"

  // ---------------------------------------------------------------- registry

  /** The route table: pattern/handler pairs in the order the table's
      properties are enumerated. */
  datatype Registry<H> = Registry(entries: seq<(string, H)>)

  /** The patterns of a table, in enumeration order. */
  function Patterns<H>(entries: seq<(string, H)>): (ps: seq<string>)
    ensures |ps| == |entries|
    ensures forall i :: 0 <= i < |entries| ==> ps[i] == entries[i].0
  {
    seq(|entries|, i requires 0 <= i < |entries| => entries[i].0)
  }

  /** A table is an object: no pattern occurs twice. */
  predicate WellFormed<H>(r: Registry<H>)
  {
    forall i, j :: 0 <= i < j < |r.entries| ==> r.entries[i].0 != r.entries[j].0
  }

  function HasPattern<H>(pattern: string): ((string, H)) -> bool
  {
    (e: (string, H)) => e.0 == pattern
  }

  /** `routeRegistry[pattern]`: the handler stored under a pattern, if any. */
  function Lookup<H>(r: Registry<H>, pattern: string): (h: Option<H>)
    ensures h.None? <==> forall i :: 0 <= i < |r.entries| ==> r.entries[i].0 != pattern
    ensures h.Some? ==> (pattern, h.value) in r.entries
  {
    match FindIndex(r.entries, HasPattern(pattern))
    case None => None
    case Some(i) => Some(r.entries[i].1)
  }

  /** `registerRoute(pattern, handler)`: property assignment. A new pattern goes
      to the end of the enumeration order; an existing one keeps its place and
      only its handler is replaced. */
  function Register<H>(r: Registry<H>, pattern: string, handler: H): (r': Registry<H>)
    requires WellFormed(r)
    ensures WellFormed(r')
    ensures Lookup(r', pattern) == Some(handler)
    ensures forall p :: p != pattern ==> Lookup(r', p) == Lookup(r, p)
    ensures Lookup(r, pattern).None? ==> r'.entries == r.entries + [(pattern, handler)]
    ensures Lookup(r, pattern).Some? ==> Patterns(r'.entries) == Patterns(r.entries)
  {
    match FindIndex(r.entries, HasPattern(pattern))
    case None =>
      RegisterNew(r, pattern, handler);
      Registry(r.entries + [(pattern, handler)])
    case Some(i) =>
      RegisterKnown(r, pattern, handler, i);
      Registry(r.entries[i := (pattern, handler)])
  }

  /** Appending a pattern the table lacks. */
  lemma RegisterNew<H>(r: Registry<H>, pattern: string, handler: H)
    requires WellFormed(r) && FindIndex(r.entries, HasPattern(pattern)).None?
    ensures WellFormed(Registry(r.entries + [(pattern, handler)]))
    ensures Lookup(Registry(r.entries + [(pattern, handler)]), pattern) == Some(handler)
    ensures forall p :: p != pattern ==> Lookup(Registry(r.entries + [(pattern, handler)]), p) == Lookup(r, p)
  {
    var r' := Registry(r.entries + [(pattern, handler)]);
    FindIndexUnique(r'.entries, HasPattern(pattern), Some(|r.entries|));
    forall p | p != pattern
      ensures Lookup(r', p) == Lookup(r, p)
    {
      FindIndexUnique(r'.entries, HasPattern(p), FindIndex(r.entries, HasPattern(p)));
    }
  }

  /** Replacing the handler of the pattern at position `i`. */
  lemma RegisterKnown<H>(r: Registry<H>, pattern: string, handler: H, i: nat)
    requires WellFormed(r) && FindIndex(r.entries, HasPattern(pattern)) == Some(i)
    ensures WellFormed(Registry(r.entries[i := (pattern, handler)]))
    ensures Lookup(Registry(r.entries[i := (pattern, handler)]), pattern) == Some(handler)
    ensures forall p :: p != pattern ==> Lookup(Registry(r.entries[i := (pattern, handler)]), p) == Lookup(r, p)
    ensures Patterns(r.entries[i := (pattern, handler)]) == Patterns(r.entries)
  {
    var r' := Registry(r.entries[i := (pattern, handler)]);
    forall p
      ensures FindIndex(r'.entries, HasPattern(p)) == FindIndex(r.entries, HasPattern(p))
    {
      FindIndexUnique(r'.entries, HasPattern(p), FindIndex(r.entries, HasPattern(p)));
    }
    assert Patterns(r'.entries) == Patterns(r.entries);
  }

  // --------------------------------------------------------------- locations

  /** `navigate(path)`: the fragment the location is set to. */
  function Navigate(path: string): (hash: string)
    ensures |hash| == |path| + 1 && hash[0] == '#' && hash[1..] == path
  {
    "#" + path
  }

  /** `getPath()`: the fragment with one leading `#` removed, or the landing
      path when nothing is left. */
  function GetPath(hash: string): (path: string)
    ensures path != ""
  {
    var rest := if |hash| > 0 && hash[0] == '#' then hash[1..] else hash;
    if rest == "" then Landing else rest
  }

  /** Exactly one leading `#` is removed; an empty remainder becomes `login`. */
  lemma GetPathStripsOneHash(rest: string)
    ensures GetPath("#" + rest) == if rest == "" then Landing else rest
    ensures GetPath("") == Landing
  {
    assert ("#" + rest)[1..] == rest;
  }

  /** Reading the path back after a navigation gives the path navigated to. */
  lemma NavigateThenGetPath(path: string)
    requires path != ""
    ensures GetPath(Navigate(path)) == path
  {
  }

  // ---------------------------------------------------------------- matching

  /** A `:name` segment captures the path segment at its position. */
  predicate IsCapture(segment: string)
  {
    |segment| > 0 && segment[0] == ':'
  }

  function ParamName(segment: string): string
    requires IsCapture(segment)
  {
    segment[1..]
  }

  /** `decodeURIComponent`, left abstract; `None` stands for the `URIError` it
      throws on a malformed escape. */
  type Decoder = string -> Option<string>

  /** Outcome of matching one pattern: the bound parameters, a structural
      mismatch (`continue` to the next pattern), or a decoder exception. */
  datatype Binding = Bound(params: map<string, string>) | Mismatch | DecodeFailed

  /** The segment loop of `matchRoute` from position `i` on, with the
      parameters bound so far in `acc`. */
  function BindFrom(ps: seq<string>, xs: seq<string>, i: nat, acc: map<string, string>, decode: Decoder): Binding
    requires |ps| == |xs| && i <= |ps|
    decreases |ps| - i
  {
    if i == |ps| then Bound(acc)
    else if IsCapture(ps[i]) then
      match decode(xs[i])
      case None => DecodeFailed
      case Some(v) => BindFrom(ps, xs, i + 1, acc[ParamName(ps[i]) := v], decode)
    else if ps[i] != xs[i] then Mismatch
    else BindFrom(ps, xs, i + 1, acc, decode)
  }

  /** Matching one pattern against a path: both are split on `/`; differing
      segment counts disqualify the pattern at once. */
  function MatchPattern(pattern: string, path: string, decode: Decoder): Binding
  {
    var ps := Split(pattern, '/');
    var xs := Split(path, '/');
    if |ps| != |xs| then Mismatch else BindFrom(ps, xs, 0, map[], decode)
  }

  /** The structural rule: equal segment counts, and every literal pattern
      segment equal to the path segment at its index. */
  predicate LiteralsAgree(ps: seq<string>, xs: seq<string>, from: nat, upto: nat)
    requires |ps| == |xs| && upto <= |ps|
  {
    forall k :: from <= k < upto && !IsCapture(ps[k]) ==> ps[k] == xs[k]
  }

  predicate Fits(pattern: string, path: string)
  {
    var ps := Split(pattern, '/');
    var xs := Split(path, '/');
    |ps| == |xs| && LiteralsAgree(ps, xs, 0, |ps|)
  }

  /** Every captured path segment decodes. */
  predicate CapturesDecode(ps: seq<string>, xs: seq<string>, from: nat, decode: Decoder)
    requires |ps| == |xs|
  {
    forall k :: from <= k < |ps| && IsCapture(ps[k]) ==> decode(xs[k]).Some?
  }

  /** Some captured segment fails to decode before any literal disagrees. */
  predicate FailsToDecode(ps: seq<string>, xs: seq<string>, from: nat, decode: Decoder)
    requires |ps| == |xs|
  {
    exists k :: from <= k < |ps| && IsCapture(ps[k]) && decode(xs[k]).None? && LiteralsAgree(ps, xs, from, k)
  }

  lemma {:induction false} BindFromOutcome(ps: seq<string>, xs: seq<string>, i: nat, acc: map<string, string>, decode: Decoder)
    requires |ps| == |xs| && i <= |ps|
    ensures BindFrom(ps, xs, i, acc, decode).Bound? <==> LiteralsAgree(ps, xs, i, |ps|) && CapturesDecode(ps, xs, i, decode)
    ensures BindFrom(ps, xs, i, acc, decode).DecodeFailed? <==> FailsToDecode(ps, xs, i, decode)
    decreases |ps| - i
  {
    if i < |ps| {
      if IsCapture(ps[i]) {
        match decode(xs[i])
        case None =>
          assert LiteralsAgree(ps, xs, i, i);
        case Some(v) =>
          BindFromOutcome(ps, xs, i + 1, acc[ParamName(ps[i]) := v], decode);
          if FailsToDecode(ps, xs, i, decode) {
            var k :| i <= k < |ps| && IsCapture(ps[k]) && decode(xs[k]).None? && LiteralsAgree(ps, xs, i, k);
            assert k != i;
            assert LiteralsAgree(ps, xs, i + 1, k);
          }
          if FailsToDecode(ps, xs, i + 1, decode) {
            var k :| i + 1 <= k < |ps| && IsCapture(ps[k]) && decode(xs[k]).None? && LiteralsAgree(ps, xs, i + 1, k);
            assert LiteralsAgree(ps, xs, i, k);
          }
      } else if ps[i] != xs[i] {
        forall k | i <= k < |ps| && IsCapture(ps[k]) && decode(xs[k]).None?
          ensures !LiteralsAgree(ps, xs, i, k)
        {
          assert k != i;
        }
      } else {
        BindFromOutcome(ps, xs, i + 1, acc, decode);
        if FailsToDecode(ps, xs, i, decode) {
          var k :| i <= k < |ps| && IsCapture(ps[k]) && decode(xs[k]).None? && LiteralsAgree(ps, xs, i, k);
          assert LiteralsAgree(ps, xs, i + 1, k);
        }
        if FailsToDecode(ps, xs, i + 1, decode) {
          var k :| i + 1 <= k < |ps| && IsCapture(ps[k]) && decode(xs[k]).None? && LiteralsAgree(ps, xs, i + 1, k);
          assert LiteralsAgree(ps, xs, i, k);
        }
      }
    }
  }

  /** A parameter named at or after position `i`. */
  predicate CapturedFrom(ps: seq<string>, i: nat, name: string)
  {
    exists j :: i <= j < |ps| && IsCapture(ps[j]) && ParamName(ps[j]) == name
  }

  lemma CapturedFromStep(ps: seq<string>, i: nat, name: string)
    requires i < |ps|
    ensures CapturedFrom(ps, i, name) <==>
              (IsCapture(ps[i]) && ParamName(ps[i]) == name) || CapturedFrom(ps, i + 1, name)
  {
    if CapturedFrom(ps, i, name) && !(IsCapture(ps[i]) && ParamName(ps[i]) == name) {
      var j :| i <= j < |ps| && IsCapture(ps[j]) && ParamName(ps[j]) == name;
      assert i + 1 <= j;
    }
  }

  /** The capture at `j` is the last one of its name (later bindings overwrite). */
  predicate LastOfName(ps: seq<string>, j: nat)
    requires j < |ps| && IsCapture(ps[j])
  {
    !CapturedFrom(ps, j + 1, ParamName(ps[j]))
  }

  /** The names bound are those already bound plus the capture names from `i` on. */
  lemma {:induction false} BindFromKeys(ps: seq<string>, xs: seq<string>, i: nat, acc: map<string, string>, decode: Decoder)
    requires |ps| == |xs| && i <= |ps|
    requires BindFrom(ps, xs, i, acc, decode).Bound?
    ensures forall name :: name in BindFrom(ps, xs, i, acc, decode).params <==> name in acc || CapturedFrom(ps, i, name)
    decreases |ps| - i
  {
    if i < |ps| {
      forall name {
        CapturedFromStep(ps, i, name);
      }
      if IsCapture(ps[i]) {
        BindFromKeys(ps, xs, i + 1, acc[ParamName(ps[i]) := decode(xs[i]).value], decode);
      } else {
        BindFromKeys(ps, xs, i + 1, acc, decode);
      }
    }
  }

  /** A name that no capture from `i` on rebinds keeps its earlier value. */
  lemma {:induction false} BindFromKeeps(ps: seq<string>, xs: seq<string>, i: nat, acc: map<string, string>, decode: Decoder, name: string)
    requires |ps| == |xs| && i <= |ps|
    requires BindFrom(ps, xs, i, acc, decode).Bound?
    requires name in acc && !CapturedFrom(ps, i, name)
    ensures name in BindFrom(ps, xs, i, acc, decode).params
    ensures BindFrom(ps, xs, i, acc, decode).params[name] == acc[name]
    decreases |ps| - i
  {
    if i < |ps| {
      CapturedFromStep(ps, i, name);
      if IsCapture(ps[i]) {
        BindFromKeeps(ps, xs, i + 1, acc[ParamName(ps[i]) := decode(xs[i]).value], decode, name);
      } else {
        BindFromKeeps(ps, xs, i + 1, acc, decode, name);
      }
    }
  }

  /** The last capture of each name decides that name's value. */
  lemma {:induction false} BindFromLast(ps: seq<string>, xs: seq<string>, i: nat, acc: map<string, string>, decode: Decoder, j: nat)
    requires |ps| == |xs| && i <= j < |ps|
    requires BindFrom(ps, xs, i, acc, decode).Bound?
    requires IsCapture(ps[j]) && LastOfName(ps, j)
    ensures decode(xs[j]).Some?
    ensures ParamName(ps[j]) in BindFrom(ps, xs, i, acc, decode).params
    ensures BindFrom(ps, xs, i, acc, decode).params[ParamName(ps[j])] == decode(xs[j]).value
    decreases |ps| - i
  {
    if i == j {
      BindFromKeeps(ps, xs, i + 1, acc[ParamName(ps[i]) := decode(xs[i]).value], decode, ParamName(ps[j]));
    } else if IsCapture(ps[i]) {
      BindFromLast(ps, xs, i + 1, acc[ParamName(ps[i]) := decode(xs[i]).value], decode, j);
    } else {
      BindFromLast(ps, xs, i + 1, acc, decode, j);
    }
  }

  /** The matching rule of `matchRoute` for one pattern: it binds exactly when the
      pattern fits the path and every captured segment decodes; it throws exactly
      when a captured segment fails to decode before any literal disagrees; it is
      skipped in every other case, and never when the pattern fits. */
  lemma MatchRule(pattern: string, path: string, decode: Decoder)
    ensures MatchPattern(pattern, path, decode).Bound? <==>
              Fits(pattern, path) && CapturesDecode(Split(pattern, '/'), Split(path, '/'), 0, decode)
    ensures MatchPattern(pattern, path, decode).DecodeFailed? <==>
              |Split(pattern, '/')| == |Split(path, '/')| && FailsToDecode(Split(pattern, '/'), Split(path, '/'), 0, decode)
    ensures Fits(pattern, path) ==> !MatchPattern(pattern, path, decode).Mismatch?
  {
    var ps := Split(pattern, '/');
    var xs := Split(path, '/');
    if |ps| == |xs| {
      BindFromOutcome(ps, xs, 0, map[], decode);
      if Fits(pattern, path) && !CapturesDecode(ps, xs, 0, decode) {
        var k :| 0 <= k < |ps| && IsCapture(ps[k]) && decode(xs[k]).None?;
        assert LiteralsAgree(ps, xs, 0, k);
      }
    }
  }

  /** With a decoder that never throws, a pattern is skipped exactly when it does
      not fit the path. */
  lemma MatchRuleTotalDecoder(pattern: string, path: string, decode: Decoder)
    requires forall x :: decode(x).Some?
    ensures MatchPattern(pattern, path, decode).Bound? <==> Fits(pattern, path)
    ensures MatchPattern(pattern, path, decode).Mismatch? <==> !Fits(pattern, path)
  {
    MatchRule(pattern, path, decode);
  }

  /** The parameters a successful match binds: exactly the capture names, each
      mapped to the decoded path segment of its last occurrence. */
  lemma MatchParams(pattern: string, path: string, decode: Decoder)
    requires MatchPattern(pattern, path, decode).Bound?
    ensures |Split(pattern, '/')| == |Split(path, '/')|
    ensures forall name :: name in MatchPattern(pattern, path, decode).params <==> CapturedFrom(Split(pattern, '/'), 0, name)
    ensures forall j :: 0 <= j < |Split(pattern, '/')| && IsCapture(Split(pattern, '/')[j]) && LastOfName(Split(pattern, '/'), j) ==>
              var name := ParamName(Split(pattern, '/')[j]);
              name in MatchPattern(pattern, path, decode).params &&
              decode(Split(path, '/')[j]).Some? &&
              MatchPattern(pattern, path, decode).params[name] == decode(Split(path, '/')[j]).value
  {
    var ps, xs := Split(pattern, '/'), Split(path, '/');
    BindFromKeys(ps, xs, 0, map[], decode);
    forall j | 0 <= j < |ps| && IsCapture(ps[j]) && LastOfName(ps, j)
      ensures ParamName(ps[j]) in MatchPattern(pattern, path, decode).params
      ensures decode(xs[j]).Some?
      ensures MatchPattern(pattern, path, decode).params[ParamName(ps[j])] == decode(xs[j]).value
    {
      BindFromLast(ps, xs, 0, map[], decode, j);
    }
  }

  /** A pattern without `:name` segments. */
  predicate CaptureFree(pattern: string)
  {
    forall i :: 0 <= i < |Split(pattern, '/')| ==> !IsCapture(Split(pattern, '/')[i])
  }

  /** A capture-free pattern matches only its own text, and binds nothing. */
  lemma CaptureFreeMatch(pattern: string, path: string, decode: Decoder)
    requires CaptureFree(pattern)
    ensures MatchPattern(pattern, path, decode) == if pattern == path then Bound(map[]) else Mismatch
  {
    var ps, xs := Split(pattern, '/'), Split(path, '/');
    MatchRule(pattern, path, decode);
    if MatchPattern(pattern, path, decode).Bound? {
      assert ps == xs;
      JoinSplit(pattern, '/');
      JoinSplit(path, '/');
      MatchParams(pattern, path, decode);
      assert MatchPattern(pattern, path, decode).params == map[];
    } else if pattern == path {
      assert Fits(pattern, path);
    }
  }

  /** A pattern `a/b/:name` against a three-segment path: the two literal
      segments must agree, and then the last segment is decoded into `name`. */
  lemma MatchTwoLiteralsThenCapture(a: string, b: string, name: string, a': string, b': string, x: string, decode: Decoder)
    requires '/' !in a && '/' !in b && '/' !in name && '/' !in a' && '/' !in b' && '/' !in x
    requires !IsCapture(a) && !IsCapture(b)
    ensures MatchPattern(Join([a, b, ":" + name], '/'), Join([a', b', x], '/'), decode) ==
              if a != a' || b != b' then Mismatch
              else match decode(x)
                case None => DecodeFailed
                case Some(v) => Bound(map[name := v])
  {
    var ps := [a, b, ":" + name];
    var xs := [a', b', x];
    assert '/' !in ":" + name;
    SplitJoin(ps, '/');
    SplitJoin(xs, '/');
    assert IsCapture(ps[2]) && ParamName(ps[2]) == name;
    var m := MatchPattern(Join(ps, '/'), Join(xs, '/'), decode);
    assert m == BindFrom(ps, xs, 0, map[], decode);
    if a == a' {
      assert m == BindFrom(ps, xs, 1, map[], decode);
      if b == b' {
        assert m == BindFrom(ps, xs, 2, map[], decode);
        if decode(x).Some? {
          assert m == BindFrom(ps, xs, 3, map[name := decode(x).value], decode);
        }
      }
    }
  }

  // -------------------------------------------------------------- resolution

  /** Result of `matchRoute`: a handler with its parameters, `null`, or the
      exception a failed decode raises out of the whole scan. */
  datatype Resolution<H> = Found(handler: H, params: map<string, string>) | NotFound | Threw

  /** A pattern the scan stops at: it binds, or its decoding throws. */
  function Unskipped<H>(path: string, decode: Decoder): ((string, H)) -> bool
  {
    (e: (string, H)) => !MatchPattern(e.0, path, decode).Mismatch?
  }

  /** `matchRoute(path)`: scan the table in enumeration order. The outcome is
      decided by the first pattern not skipped: its handler and bound parameters,
      or its decoder exception; `null` when every pattern is skipped. */
  function ResolveIn<H>(entries: seq<(string, H)>, path: string, decode: Decoder): (r: Resolution<H>)
    ensures r.NotFound? <==> FindIndex(entries, Unskipped(path, decode)).None?
    ensures FindIndex(entries, Unskipped(path, decode)).Some? ==>
              var k := FindIndex(entries, Unskipped(path, decode)).value;
              match MatchPattern(entries[k].0, path, decode)
              case Bound(m) => r == Found(entries[k].1, m)
              case DecodeFailed => r == Threw
              case Mismatch => false
  {
    if |entries| == 0 then NotFound
    else match MatchPattern(entries[0].0, path, decode)
      case Bound(m) => Found(entries[0].1, m)
      case DecodeFailed => Threw
      case Mismatch =>
        assert !Unskipped<H>(path, decode)(entries[0]);
        ResolveIn(entries[1..], path, decode)
  }

  function Resolve<H>(r: Registry<H>, path: string, decode: Decoder): Resolution<H>
  {
    ResolveIn(r.entries, path, decode)
  }

  function FitsPath<H>(path: string): ((string, H)) -> bool
  {
    (e: (string, H)) => Fits(e.0, path)
  }

  /** The first entry that does not mismatch is the one the scan stops at. */
  lemma ResolveAt<H>(entries: seq<(string, H)>, path: string, decode: Decoder, k: nat)
    requires k < |entries|
    requires forall j :: 0 <= j < k ==> MatchPattern(entries[j].0, path, decode).Mismatch?
    requires !MatchPattern(entries[k].0, path, decode).Mismatch?
    ensures FindIndex(entries, Unskipped(path, decode)) == Some(k)
  {
    FindIndexUnique(entries, Unskipped(path, decode), Some(k));
  }

  /** With a decoder that never throws, `matchRoute` never throws, returns `null`
      exactly when no pattern fits the path, and otherwise returns the handler of
      the first pattern, in table order, that fits. */
  lemma ResolveTotalDecoder<H>(entries: seq<(string, H)>, path: string, decode: Decoder)
    requires forall x :: decode(x).Some?
    ensures !ResolveIn(entries, path, decode).Threw?
    ensures ResolveIn(entries, path, decode).NotFound? <==> FindIndex(entries, FitsPath(path)).None?
    ensures ResolveIn(entries, path, decode).Found? ==>
              ResolveIn(entries, path, decode).handler == entries[FindIndex(entries, FitsPath(path)).value].1
  {
    forall j | 0 <= j < |entries|
      ensures Unskipped<H>(path, decode)(entries[j]) == FitsPath<H>(path)(entries[j])
      ensures !MatchPattern(entries[j].0, path, decode).DecodeFailed?
    {
      MatchRuleTotalDecoder(entries[j].0, path, decode);
    }
    FindIndexAgree(entries, Unskipped(path, decode), FitsPath(path));
  }

  // ---------------------------------------------------------------- dispatch

  /** What `render()` does: run a handler with its parameters, navigate to the
      landing path, or abort with the decoder's exception. */
  datatype Dispatch<H> = Show(handler: H, params: map<string, string>) | Redirect(hash: string) | Fault

  /** `render()`: resolve the current path and dispatch; unmatched paths fall
      back to `navigate('login')`. */
  function Render<H>(r: Registry<H>, hash: string, decode: Decoder): (d: Dispatch<H>)
    ensures d.Redirect? <==> Resolve(r, GetPath(hash), decode).NotFound?
    ensures d.Redirect? ==> GetPath(d.hash) == Landing
    ensures d.Redirect? ==> d.hash == "#login"
    ensures d.Show? <==> Resolve(r, GetPath(hash), decode).Found?
    ensures d.Show? ==> Resolve(r, GetPath(hash), decode) == Found(d.handler, d.params)
  {
    match Resolve(r, GetPath(hash), decode)
    case Found(h, m) => Show(h, m)
    case NotFound => Redirect(Navigate(Landing))
    case Threw => Fault
  }
}
