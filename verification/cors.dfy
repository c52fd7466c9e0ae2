/**
  The backend's cross-origin policy, fixed at start-up from two environment
  settings: the comma-separated `FRONTEND_ORIGIN` list and `ENVIRONMENT`.
  The allowed origins are the listed ones (trimmed, blanks dropped), the four
  local development servers in development, and the production site; Render
  subdomains are allowed by pattern when a listed origin is on Render.
 */
module Cors {
  import opened Common
  import opened Strings

  const ProductionOrigin := "https://vod.losingsanity.com"
  const DevOrigins := ["http://localhost:5173", "http://localhost:3000", "http://127.0.0.1:5173", "http://127.0.0.1:3000"]
  const RenderPattern := "https://.*\\.onrender\\.com"

  /** `ENVIRONMENT`, `development` when unset. */
  function EnvironmentName(environment: Option<string>): string {
    environment.GetOr("development")
  }

  /** Non-empty, with no whitespace at either end. */
  predicate Trimmed(s: string) {
    s != [] && !IsSpace(s[0]) && !IsSpace(s[|s| - 1])
  }

  /** The positions holding true, counted from `from`, in order. */
  function PositionsFrom(marks: seq<bool>, from: nat): seq<nat>
    decreases |marks|
  {
    if |marks| == 0 then []
    else
      var rest := PositionsFrom(marks[1..], from + 1);
      if marks[0] then [from] + rest else rest
  }

  /** Every entry trimmed. */
  function TrimAll(pieces: seq<string>): (ts: seq<string>)
    ensures |ts| == |pieces|
    decreases |pieces|
  {
    if |pieces| == 0 then [] else [Trim(pieces[0])] + TrimAll(pieces[1..])
  }

  lemma {:induction false} TrimAllAt(pieces: seq<string>)
    ensures forall j :: 0 <= j < |pieces| ==> TrimAll(pieces)[j] == Trim(pieces[j])
    decreases |pieces|
  {
    if |pieces| > 0 {
      TrimAllAt(pieces[1..]);
      forall j | 1 <= j < |pieces| ensures TrimAll(pieces)[j] == Trim(pieces[j]) {
        assert pieces[1..][j - 1] == pieces[j];
      }
    }
  }

  /** Which strings are not empty. */
  function Filled(ts: seq<string>): (marks: seq<bool>)
    ensures |marks| == |ts| && forall j :: 0 <= j < |ts| ==> (marks[j] <==> ts[j] != [])
    decreases |ts|
  {
    if |ts| == 0 then [] else [ts[0] != []] + Filled(ts[1..])
  }

  /** The elements whose mark is set, in order. */
  function Keep<T>(xs: seq<T>, marks: seq<bool>): seq<T>
    requires |marks| == |xs|
    decreases |xs|
  {
    if |xs| == 0 then []
    else
      var rest := Keep(xs[1..], marks[1..]);
      if marks[0] then [xs[0]] + rest else rest
  }

  /** The k-th element kept is the one at the k-th marked position. */
  lemma {:induction false} KeepAt<T>(xs: seq<T>, marks: seq<bool>, from: nat)
    requires |marks| == |xs|
    ensures |Keep(xs, marks)| == |PositionsFrom(marks, from)|
    ensures forall k :: 0 <= k < |Keep(xs, marks)| ==>
      from <= PositionsFrom(marks, from)[k] < from + |xs|
      && Keep(xs, marks)[k] == xs[PositionsFrom(marks, from)[k] - from]
    decreases |xs|
  {
    if |xs| > 0 {
      KeepAt(xs[1..], marks[1..], from + 1);
      var rest := Keep(xs[1..], marks[1..]);
      var tail := PositionsFrom(marks[1..], from + 1);
      var r := Keep(xs, marks);
      var idx := PositionsFrom(marks, from);
      assert r == if marks[0] then [xs[0]] + rest else rest;
      assert idx == if marks[0] then [from] + tail else tail;
      var lead := if marks[0] then 1 else 0;
      forall k | 0 <= k < |r| ensures from <= idx[k] < from + |xs| && r[k] == xs[idx[k] - from] {
        if k >= lead {
          assert r[k] == rest[k - lead] && idx[k] == tail[k - lead];
          assert xs[1..][tail[k - lead] - (from + 1)] == xs[idx[k] - from];
        }
      }
    }
  }

  /** The positions of the entries that are not blank once trimmed, in order. */
  function NonBlankPositions(pieces: seq<string>): seq<nat> {
    PositionsFrom(Filled(TrimAll(pieces)), 0)
  }

  /** The origins listed in the setting, trimmed, blank entries dropped, in order. */
  function ListedOrigins(pieces: seq<string>): (r: seq<string>)
    ensures |r| <= |pieces|
    ensures forall i :: 0 <= i < |r| ==> Trimmed(r[i])
    decreases |pieces|
  {
    if |pieces| == 0 then []
    else
      var rest := ListedOrigins(pieces[1..]);
      var t := Trim(pieces[0]);
      if t == [] then rest else [t] + rest
  }

  /** Every non-blank entry of the setting is allowed, trimmed. */
  lemma {:induction false} ListedKeepsEntries(pieces: seq<string>, i: int)
    requires 0 <= i < |pieces| && Trim(pieces[i]) != []
    ensures Trim(pieces[i]) in ListedOrigins(pieces)
    decreases |pieces|
  {
    ListedStep(pieces);
    if i > 0 {
      assert pieces[1..][i - 1] == pieces[i];
      ListedKeepsEntries(pieces[1..], i - 1);
    }
  }

  /** Every position found lies in the range counted and is marked. */
  lemma {:induction false} PositionsMarked(marks: seq<bool>, from: nat)
    ensures forall k :: 0 <= k < |PositionsFrom(marks, from)| ==>
      from <= PositionsFrom(marks, from)[k] < from + |marks| && marks[PositionsFrom(marks, from)[k] - from]
    decreases |marks|
  {
    if |marks| > 0 {
      PositionsMarked(marks[1..], from + 1);
      var rest := PositionsFrom(marks[1..], from + 1);
      var idx := PositionsFrom(marks, from);
      var lead := if marks[0] then 1 else 0;
      assert idx == (if marks[0] then [from] + rest else rest);
      forall k | 0 <= k < |idx| ensures from <= idx[k] < from + |marks| && marks[idx[k] - from] {
        if k >= lead {
          assert idx[k] == rest[k - lead];
          assert marks[1..][idx[k] - from - 1] == marks[idx[k] - from];
        }
      }
    }
  }

  /** The positions found increase strictly. */
  lemma {:induction false} PositionsIncreasing(marks: seq<bool>, from: nat)
    ensures forall a, b :: 0 <= a < b < |PositionsFrom(marks, from)| ==>
      PositionsFrom(marks, from)[a] < PositionsFrom(marks, from)[b]
    decreases |marks|
  {
    if |marks| > 0 {
      PositionsIncreasing(marks[1..], from + 1);
      PositionsMarked(marks[1..], from + 1);
      var rest := PositionsFrom(marks[1..], from + 1);
      assert PositionsFrom(marks, from) == (if marks[0] then [from] + rest else rest);
    }
  }

  /** Every marked position is found. */
  lemma {:induction false} PositionsComplete(marks: seq<bool>, from: nat)
    ensures forall j :: 0 <= j < |marks| && marks[j] ==> from + j in PositionsFrom(marks, from)
    decreases |marks|
  {
    if |marks| > 0 {
      PositionsComplete(marks[1..], from + 1);
      var rest := PositionsFrom(marks[1..], from + 1);
      var idx := PositionsFrom(marks, from);
      assert idx == (if marks[0] then [from] + rest else rest);
      forall j | 0 <= j < |marks| && marks[j] ensures from + j in idx {
        if j > 0 {
          assert marks[1..][j - 1];
          assert from + 1 + (j - 1) in rest;
        }
      }
    }
  }

  /** The positions found are exactly the filled entries, in increasing order. */
  lemma FilledPositionsExact(ts: seq<string>)
    ensures forall k :: 0 <= k < |PositionsFrom(Filled(ts), 0)| ==>
      PositionsFrom(Filled(ts), 0)[k] < |ts| && ts[PositionsFrom(Filled(ts), 0)[k]] != []
    ensures forall a, b :: 0 <= a < b < |PositionsFrom(Filled(ts), 0)| ==>
      PositionsFrom(Filled(ts), 0)[a] < PositionsFrom(Filled(ts), 0)[b]
    ensures forall j :: 0 <= j < |ts| && ts[j] != [] ==> j in PositionsFrom(Filled(ts), 0)
  {
    FilledPositionsFilled(ts);
    PositionsIncreasing(Filled(ts), 0);
    FilledPositionsComplete(ts);
  }

  lemma FilledPositionsFilled(ts: seq<string>)
    ensures forall k :: 0 <= k < |PositionsFrom(Filled(ts), 0)| ==>
      PositionsFrom(Filled(ts), 0)[k] < |ts| && ts[PositionsFrom(Filled(ts), 0)[k]] != []
  {
    var marks := Filled(ts);
    PositionsMarked(marks, 0);
    var idx := PositionsFrom(marks, 0);
    forall k | 0 <= k < |idx| ensures idx[k] < |ts| && ts[idx[k]] != [] {
      assert marks[idx[k] - 0];
    }
  }

  lemma FilledPositionsComplete(ts: seq<string>)
    ensures forall j :: 0 <= j < |ts| && ts[j] != [] ==> j in PositionsFrom(Filled(ts), 0)
  {
    var marks := Filled(ts);
    PositionsComplete(marks, 0);
    forall j | 0 <= j < |ts| && ts[j] != [] ensures j in PositionsFrom(marks, 0) {
      assert marks[j] && 0 + j == j;
    }
  }

  /** The positions found are exactly the non-blank entries, in increasing order. */
  lemma NonBlankPositionsExact(pieces: seq<string>)
    ensures forall k :: 0 <= k < |NonBlankPositions(pieces)| ==>
      NonBlankPositions(pieces)[k] < |pieces| && Trim(pieces[NonBlankPositions(pieces)[k]]) != []
    ensures forall a, b :: 0 <= a < b < |NonBlankPositions(pieces)| ==>
      NonBlankPositions(pieces)[a] < NonBlankPositions(pieces)[b]
    ensures forall j :: 0 <= j < |pieces| && Trim(pieces[j]) != [] ==> j in NonBlankPositions(pieces)
  {
    var ts := TrimAll(pieces);
    FilledPositionsExact(ts);
    TrimAllAt(pieces);
  }

  /** The listing is the trimmed entries with the empty ones dropped. */
  lemma {:induction false} ListedIsKept(pieces: seq<string>)
    ensures ListedOrigins(pieces) == Keep(TrimAll(pieces), Filled(TrimAll(pieces)))
    decreases |pieces|
  {
    if |pieces| > 0 {
      ListedIsKept(pieces[1..]);
      var ts := TrimAll(pieces);
      assert ts[1..] == TrimAll(pieces[1..]);
      assert Filled(ts)[1..] == Filled(ts[1..]);
    }
  }

  /** The k-th listed origin is the trimmed entry at the k-th non-blank position. */
  lemma ListedAtPositions(pieces: seq<string>)
    ensures |ListedOrigins(pieces)| == |NonBlankPositions(pieces)|
    ensures forall k :: 0 <= k < |ListedOrigins(pieces)| ==>
      NonBlankPositions(pieces)[k] < |pieces| && ListedOrigins(pieces)[k] == Trim(pieces[NonBlankPositions(pieces)[k]])
  {
    var ts := TrimAll(pieces);
    ListedIsKept(pieces);
    KeepAt(ts, Filled(ts), 0);
    forall k | 0 <= k < |ListedOrigins(pieces)|
      ensures NonBlankPositions(pieces)[k] < |pieces| && ListedOrigins(pieces)[k] == Trim(pieces[NonBlankPositions(pieces)[k]])
    {
      ListedAt(pieces, k);
    }
  }

  lemma ListedAt(pieces: seq<string>, k: int)
    requires 0 <= k < |ListedOrigins(pieces)|
    ensures k < |NonBlankPositions(pieces)|
    ensures NonBlankPositions(pieces)[k] < |pieces| && ListedOrigins(pieces)[k] == Trim(pieces[NonBlankPositions(pieces)[k]])
  {
    var ts := TrimAll(pieces);
    var idx := NonBlankPositions(pieces);
    ListedIsKept(pieces);
    KeepAt(ts, Filled(ts), 0);
    assert ListedOrigins(pieces)[k] == ts[idx[k] - 0];
    TrimAllIndex(pieces, idx[k]);
  }

  lemma TrimAllIndex(pieces: seq<string>, j: int)
    requires 0 <= j < |pieces|
    ensures TrimAll(pieces)[j] == Trim(pieces[j])
  {
    TrimAllAt(pieces);
  }

  /** One step of the listing: the first entry, when not blank, then the rest. */
  lemma ListedStep(pieces: seq<string>)
    requires |pieces| > 0
    ensures var rest := ListedOrigins(pieces[1..]);
      ListedOrigins(pieces) == if Trim(pieces[0]) == [] then rest else [Trim(pieces[0])] + rest
  {
  }

  /** The `allow_origins` list. */
  function Origins(frontendOrigin: Option<string>, environment: Option<string>): (r: seq<string>)
    ensures |r| >= 1 && r[|r| - 1] == ProductionOrigin
    ensures forall o :: o in DevOrigins ==> (o in r <== EnvironmentName(environment) == "development")
    ensures r[..|r| - 1] == ListedOrigins(Split(frontendOrigin.GetOr(""), ',')) +
      (if EnvironmentName(environment) == "development" then DevOrigins else [])
  {
    var listed := ListedOrigins(Split(frontendOrigin.GetOr(""), ','));
    var origins := listed + (if EnvironmentName(environment) == "development" then DevOrigins else []);
    var r := origins + [ProductionOrigin];
    if r == [] then ["*"] else r
  }

  /** The wildcard fallback is never taken: the production site is always listed. */
  lemma NeverWildcard(frontendOrigin: Option<string>, environment: Option<string>)
    ensures Origins(frontendOrigin, environment) != ["*"]
  {
    var r := Origins(frontendOrigin, environment);
    assert r[|r| - 1] == ProductionOrigin;
  }

  /** An origin on Render. */
  predicate OnRender(o: string) {
    Contains(o, "onrender.com")
  }

  /** `allow_origin_regex`: the Render pattern exactly when some allowed origin is on Render. */
  function OriginRegex(origins: seq<string>): (r: Option<string>)
    ensures r.Some? <==> origins != ["*"] && exists i :: 0 <= i < |origins| && OnRender(origins[i])
    ensures r.Some? ==> r.value == RenderPattern
  {
    if origins != ["*"] && exists i :: 0 <= i < |origins| && OnRender(origins[i]) then Some(RenderPattern) else None
  }

  /** An origin on Render has an `r` in it. */
  lemma OnRenderHasR(o: string)
    ensures OnRender(o) ==> 'r' in o
  {
    if OnRender(o) {
      ContainsChars(o, "onrender.com", 2);
    }
  }

  /** Neither the development servers nor the production site is on Render. */
  lemma FixedOriginsOffRender(o: string)
    requires o in DevOrigins || o == ProductionOrigin
    ensures !OnRender(o)
  {
    NoRInFixedOrigins();
    OnRenderHasR(o);
  }

  lemma NoRInFixedOrigins()
    ensures 'r' !in ProductionOrigin
    ensures forall d :: d in DevOrigins ==> 'r' !in d
  {
  }

  /** Every allowed origin on Render is a listed one. */
  lemma RenderOriginIsListed(frontendOrigin: Option<string>, environment: Option<string>, i: int)
    requires 0 <= i < |Origins(frontendOrigin, environment)|
    requires OnRender(Origins(frontendOrigin, environment)[i])
    ensures Origins(frontendOrigin, environment)[i] in ListedOrigins(Split(frontendOrigin.GetOr(""), ','))
  {
    var listed := ListedOrigins(Split(frontendOrigin.GetOr(""), ','));
    var dev := if EnvironmentName(environment) == "development" then DevOrigins else [];
    var origins := Origins(frontendOrigin, environment);
    assert origins == listed + dev + [ProductionOrigin];
    if i < |listed| {
      assert origins[i] == listed[i];
    } else {
      assert origins[i] in DevOrigins || origins[i] == ProductionOrigin;
      FixedOriginsOffRender(origins[i]);
    }
  }

  /**
    With the origins configured at start-up, the Render pattern is allowed exactly
    when an origin listed in `FRONTEND_ORIGIN` is on Render.
   */
  lemma {:induction false} RegexFromListed(frontendOrigin: Option<string>, environment: Option<string>)
    ensures OriginRegex(Origins(frontendOrigin, environment)).Some? <==>
      exists o :: o in ListedOrigins(Split(frontendOrigin.GetOr(""), ',')) && OnRender(o)
    ensures OriginRegex(Origins(frontendOrigin, environment)).Some? ==>
      OriginRegex(Origins(frontendOrigin, environment)).value == RenderPattern
  {
    var listed := ListedOrigins(Split(frontendOrigin.GetOr(""), ','));
    var origins := Origins(frontendOrigin, environment);
    if exists o :: o in listed && OnRender(o) {
      var o :| o in listed && OnRender(o);
      ListedRenderAllowsRegex(frontendOrigin, environment, o);
    }
    if OriginRegex(origins).Some? {
      var i :| 0 <= i < |origins| && OnRender(origins[i]);
      RenderOriginIsListed(frontendOrigin, environment, i);
    }
  }

  /** A listed origin on Render turns the Render pattern on. */
  lemma ListedRenderAllowsRegex(frontendOrigin: Option<string>, environment: Option<string>, o: string)
    requires o in ListedOrigins(Split(frontendOrigin.GetOr(""), ',')) && OnRender(o)
    ensures OriginRegex(Origins(frontendOrigin, environment)).Some?
  {
    var listed := ListedOrigins(Split(frontendOrigin.GetOr(""), ','));
    var origins := Origins(frontendOrigin, environment);
    NeverWildcard(frontendOrigin, environment);
    var i :| 0 <= i < |listed| && listed[i] == o;
    assert origins[..|origins| - 1][i] == o;
    assert OnRender(origins[i]);
  }

  /** A comma-free list of trimmed, non-blank origins is read back as written. */
  lemma ListedRoundTrip(entries: seq<string>)
    requires |entries| >= 1
    requires forall i :: 0 <= i < |entries| ==> ',' !in entries[i] && Trimmed(entries[i])
    ensures ListedOrigins(Split(Join(entries, ","), ',')) == entries
  {
    SplitJoin(entries, ',');
    ListedOfTrimmed(entries);
  }

  lemma {:induction false} ListedOfTrimmed(entries: seq<string>)
    requires forall i :: 0 <= i < |entries| ==> Trimmed(entries[i])
    ensures ListedOrigins(entries) == entries
    decreases |entries|
  {
    if |entries| > 0 {
      TrimTrimmed(entries[0]);
      ListedOfTrimmed(entries[1..]);
    }
  }
}
