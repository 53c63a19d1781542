/**
 Choosing a context size for the local model (app/llm/context_sizing.py, app/system/specs/report.py): a
 ladder of sizes cut by a memory estimate, tried from the largest down.
 */
module ContextSizing {
  import opened Text

  const LADDER: seq<nat> := [32768, 16384, 8192, 4096, 2048, 1024, 512]

  const RESERVE_BYTES: nat := 1_500_000_000
  const KV_BYTES_PER_TOKEN: nat := 131_072

  function Max(a: int, b: int): (m: int)
    ensures m >= a && m >= b && (m == a || m == b)
  {
    if a >= b then a else b
  }

  /** `estimate_max_context_tokens` */
  function EstimateMaxTokens(available: Option<nat>, modelBytes: Option<nat>): Option<nat> {
    if available.None? then None
    else
      var model := if modelBytes.Some? then modelBytes.value else 0;
      var budget := available.value - RESERVE_BYTES - model;
      if budget <= 0 then None else Some(budget / KV_BYTES_PER_TOKEN)
  }

  function AtMost(sizes: seq<nat>, bound: int): seq<nat> {
    if sizes == [] then []
    else if sizes[0] <= bound then [sizes[0]] + AtMost(sizes[1..], bound)
    else AtMost(sizes[1..], bound)
  }

  function OrSmallest(sizes: seq<nat>): seq<nat> {
    if sizes == [] then [512] else sizes
  }

  /** `context_sizes_to_try` */
  function SizesToTry(requested: int, cap: Option<nat>): seq<nat> {
    var ladder := OrSmallest(AtMost(LADDER, Max(512, requested)));
    if cap.Some? then OrSmallest(AtMost(ladder, cap.value)) else ladder
  }

  ghost predicate Decreasing(sizes: seq<nat>) {
    forall i, j | 0 <= i < j < |sizes| :: sizes[i] > sizes[j]
  }

  lemma {:induction false} AtMostFilters(sizes: seq<nat>, bound: int)
    requires Decreasing(sizes)
    ensures Decreasing(AtMost(sizes, bound))
    ensures forall x :: x in AtMost(sizes, bound) <==> x in sizes && x <= bound
  {
    if sizes != [] {
      AtMostFilters(sizes[1..], bound);
      assert sizes == [sizes[0]] + sizes[1..];
      var rest := AtMost(sizes[1..], bound);
      forall j | 0 <= j < |rest|
        ensures rest[j] < sizes[0]
      {
        assert rest[j] in sizes[1..];
        var k :| 0 <= k < |sizes[1..]| && sizes[1..][k] == rest[j];
        assert sizes[k + 1] == rest[j];
      }
    }
  }

  /** The sizes to try are rungs of the ladder, at least one, strictly decreasing, and not above the request. */
  lemma SizesShape(requested: int, cap: Option<nat>)
    ensures var sizes := SizesToTry(requested, cap);
            && sizes != [] && Decreasing(sizes)
            && (forall x | x in sizes :: x in LADDER && x <= Max(512, requested))
    ensures forall x :: x in SizesToTry(requested, None) <==> x in LADDER && x <= Max(512, requested)
  {
    assert Decreasing(LADDER);
    assert LADDER[6] == 512;
    AtMostFilters(LADDER, Max(512, requested));
    var ladder := OrSmallest(AtMost(LADDER, Max(512, requested)));
    assert 512 in ladder;
    if cap.Some? {
      AtMostFilters(ladder, cap.value);
    }
  }

  /**
   When a memory cap is computed, every size that is tried fits beside the model and the reserve, except for
   a last resort of 512; and nothing that fits is skipped.
   */
  lemma SizesFit(requested: int, available: nat, modelBytes: Option<nat>)
    requires EstimateMaxTokens(Some(available), modelBytes).Some?
    ensures var model := if modelBytes.Some? then modelBytes.value else 0;
            var sizes := SizesToTry(requested, EstimateMaxTokens(Some(available), modelBytes));
            && (forall x | x in sizes :: x * KV_BYTES_PER_TOKEN + RESERVE_BYTES + model <= available || sizes == [512])
            && (forall x | x in LADDER && x <= Max(512, requested)
                           && x * KV_BYTES_PER_TOKEN + RESERVE_BYTES + model <= available ::
                  x in sizes)
  {
    var model := if modelBytes.Some? then modelBytes.value else 0;
    var cap := EstimateMaxTokens(Some(available), modelBytes).value;
    var budget := available - RESERVE_BYTES - model;
    assert Decreasing(LADDER);
    assert LADDER[6] == 512;
    AtMostFilters(LADDER, Max(512, requested));
    AtMostFilters(OrSmallest(AtMost(LADDER, Max(512, requested))), cap);
    forall x: nat
      ensures x <= cap <==> x * KV_BYTES_PER_TOKEN + RESERVE_BYTES + model <= available
    {
      assert cap * KV_BYTES_PER_TOKEN <= budget < (cap + 1) * KV_BYTES_PER_TOKEN;
    }
  }

  lemma OnlyTheSmallest(sizes: seq<nat>)
    requires sizes != [] && Decreasing(sizes) && forall x | x in sizes :: x in LADDER && x < 1024
    ensures sizes == [512]
  {
    assert |sizes| > 1 ==> sizes[0] > sizes[1];
    forall i | 0 <= i < |sizes|
      ensures sizes[i] == 512
    {
      assert sizes[i] in sizes;
    }
  }

  // With no budget the whole ladder up to the request is tried, and none of it fits.
  lemma NoBudgetNoCap(requested: int, available: nat, modelBytes: Option<nat>)
    requires available <= RESERVE_BYTES + if modelBytes.Some? then modelBytes.value else 0
    ensures var sizes := SizesToTry(requested, EstimateMaxTokens(Some(available), modelBytes));
            && (forall x :: x in sizes <==> x in LADDER && x <= Max(512, requested))
            && (sizes == [512] <==> requested < 1024)
            && (forall x | x in sizes :: x * KV_BYTES_PER_TOKEN + RESERVE_BYTES > available
                                         - if modelBytes.Some? then modelBytes.value else 0)
  {
    SizesShape(requested, None);
    var sizes := SizesToTry(requested, None);
    assert LADDER[5] == 1024 && LADDER[6] == 512;
    if requested >= 1024 {
      assert 1024 in sizes;
    } else {
      OnlyTheSmallest(sizes);
    }
  }

  /**
   Exactly when every size that is tried fits, apart from a last resort of 512: when there is any memory
   beside the model and the reserve, so that a cap is computed, or when the request leaves only 512 to try.
   */
  lemma SizesFitExactly(requested: int, available: nat, modelBytes: Option<nat>)
    ensures var model := if modelBytes.Some? then modelBytes.value else 0;
            var sizes := SizesToTry(requested, EstimateMaxTokens(Some(available), modelBytes));
            (sizes == [512] || forall x | x in sizes :: x * KV_BYTES_PER_TOKEN + RESERVE_BYTES + model <= available)
            <==> (available > RESERVE_BYTES + model || requested < 1024)
  {
    var model := if modelBytes.Some? then modelBytes.value else 0;
    if available > RESERVE_BYTES + model {
      assert EstimateMaxTokens(Some(available), modelBytes).Some?;
      SizesFit(requested, available, modelBytes);
    } else {
      NoBudgetNoCap(requested, available, modelBytes);
      SizesShape(requested, EstimateMaxTokens(Some(available), modelBytes));
      var sizes := SizesToTry(requested, EstimateMaxTokens(Some(available), modelBytes));
      assert sizes[0] in sizes;
    }
  }

  lemma {:induction false} NoneAtMost(sizes: seq<nat>, bound: int)
    requires forall i | 0 <= i < |sizes| :: sizes[i] > bound
    ensures AtMost(sizes, bound) == []
  {
    if sizes != [] {
      NoneAtMost(sizes[1..], bound);
    }
  }

  lemma {:induction false} AllAtMost(sizes: seq<nat>, bound: int)
    requires forall i | 0 <= i < |sizes| :: sizes[i] <= bound
    ensures AtMost(sizes, bound) == sizes
  {
    if sizes != [] {
      AllAtMost(sizes[1..], bound);
    }
  }

  lemma {:induction false} WholeLadder(requested: int)
    requires forall i | 0 <= i < |LADDER| :: LADDER[i] <= requested
    ensures OrSmallest(AtMost(LADDER, Max(512, requested))) == LADDER
  {
    AllAtMost(LADDER, Max(512, requested));
  }

  lemma {:induction false} LastResort(sizes: seq<nat>, bound: int)
    requires forall i | 0 <= i < |sizes| :: sizes[i] > bound
    ensures OrSmallest(AtMost(sizes, bound)) == [512]
  {
    NoneAtMost(sizes, bound);
  }

  // The top rungs are tried on a machine without a spare byte, and none of them with one.
  lemma OneByteDecides(model: nat)
    ensures SizesToTry(32768, EstimateMaxTokens(Some(RESERVE_BYTES + model), Some(model))) == LADDER
    ensures SizesToTry(32768, EstimateMaxTokens(Some(RESERVE_BYTES + model + 1), Some(model))) == [512]
  {
    WholeLadder(32768);
    LastResort(LADDER, 0);
    assert EstimateMaxTokens(Some(RESERVE_BYTES + model), Some(model)) == None;
    assert EstimateMaxTokens(Some(RESERVE_BYTES + model + 1), Some(model)) == Some(0);
  }

  // ----- Loading -----

  // What building the model comes to; any other exception is handed on.
  datatype Outcome = Loads | MissingLibrary | LoadError | OtherError

  datatype Reason = Memory | LoadFailure

  datatype Loaded =
    | Model(size: nat)
    | ImportFailed
    | OtherRaised
    | NoSizeLoads

  // The first size that does not merely fail to load has the given outcome.
  ghost predicate FirstToEnd(sizes: seq<nat>, load: nat -> Outcome, outcome: Outcome) {
    exists i :: 0 <= i < |sizes| && load(sizes[i]) == outcome && forall j | 0 <= j < i :: load(sizes[j]) == LoadError
  }

  class ModelLoader {
    var notices: map<string, Reason>

    constructor ()
      ensures notices == map[]
    {
      notices := map[];
    }

    /**
     `_load_local_model_uncached`, for an arbitrary loader.  The sizes are tried from the largest down, and
     the first that does not merely fail to load decides: a model is of the largest size that loads.  A
     notice is stored exactly when that is below the request.
     */
    method LoadLocalModel(path: string, requested: int, cap: Option<nat>, load: nat -> Outcome) returns (r: Loaded)
      modifies this
      ensures r.Model? ==> r.size in SizesToTry(requested, cap) && load(r.size) == Loads
      ensures r.Model? ==> forall x | x in SizesToTry(requested, cap) && x > r.size :: load(x) == LoadError
      ensures r.NoSizeLoads? <==> forall x | x in SizesToTry(requested, cap) :: load(x) == LoadError
      ensures r.ImportFailed? ==> FirstToEnd(SizesToTry(requested, cap), load, MissingLibrary)
      ensures r.OtherRaised? ==> FirstToEnd(SizesToTry(requested, cap), load, OtherError)
      ensures notices == if r.Model? && r.size < requested
                         then old(notices)[path := if r.size == SizesToTry(requested, cap)[0]
                                                   then Memory else LoadFailure]
                         else old(notices)
    {
      var sizes := SizesToTry(requested, cap);
      SizesShape(requested, cap);
      var attemptedFailure := false;
      for i := 0 to |sizes|
        invariant notices == old(notices)
        invariant attemptedFailure <==> i > 0
        invariant forall j | 0 <= j < i :: load(sizes[j]) == LoadError
      {
        var size := sizes[i];
        assert load(size) != LoadError ==> FirstToEnd(sizes, load, load(size));
        match load(size) {
          case Loads =>
            if size < requested {
              var reason := if attemptedFailure then LoadFailure else Memory;
              notices := notices[path := reason];
            }
            return Model(size);
          case MissingLibrary =>
            return ImportFailed;
          case OtherError =>
            return OtherRaised;
          case LoadError =>
            attemptedFailure := true;
        }
      }
      return NoSizeLoads;
    }

    // `pop_context_load_notice`
    method PopNotice(path: string) returns (notice: Option<Reason>)
      modifies this
      ensures notice == if path in old(notices) then Some(old(notices)[path]) else None
      ensures notices == old(notices) - {path}
    {
      notice := if path in notices then Some(notices[path]) else None;
      notices := notices - {path};
    }
  }
}
