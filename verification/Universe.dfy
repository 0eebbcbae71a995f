/** Reconciliation of the symbol universe (app/data/collector.py, SymbolRepository in
    app/repositories/market_repository.py). */
module Universe {
  import opened Prelude

  /** One fetched symbol; `valid` is the verdict of its validation. */
  datatype Fetched = Fetched(symbol: string, valid: bool)

  function Confirmed(fetched: seq<Fetched>): set<string> {
    set f | f in fetched && f.valid :: f.symbol
  }

  lemma {:induction false} ConfirmedSnoc(fetched: seq<Fetched>, i: nat)
    requires i < |fetched|
    ensures Confirmed(fetched[..i + 1]) ==
            Confirmed(fetched[..i]) + if fetched[i].valid then {fetched[i].symbol} else {}
  {
    assert fetched[..i + 1] == fetched[..i] + [fetched[i]];
  }

  class SymbolTable {
    var active: map<string, bool>

    constructor ()
      ensures active == map[]
    {
      active := map[];
    }

    function Active(): set<string>
      reads this
    {
      set s | s in active && active[s]
    }

    method Upsert(symbol: string)
      modifies this
      ensures Active() == old(Active()) + {symbol} && active.Keys == old(active.Keys) + {symbol}
    {
      active := active[symbol := true];
    }

    /** Deactivates every active symbol that is not among the current ones, and no other. */
    method DeactivateMissing(current: set<string>) returns (deactivated: set<string>)
      modifies this
      ensures deactivated == old(Active()) - current
      ensures Active() == old(Active()) * current && active.Keys == old(active.Keys)
    {
      deactivated := Active() - current;
      active := map s | s in active :: active[s] && s !in deactivated;
    }
  }

  datatype Report = Report(succeeded: nat, failed: nat, skipped: bool, deactivated: set<string>)

  class MarketDataCollector {
    const table: SymbolTable
    const minFraction: real

    constructor (table: SymbolTable, minFraction: real)
      ensures this.table == table && this.minFraction == minFraction
    {
      this.table, this.minFraction := table, minFraction;
    }

    /** `_collect_symbols_impl`. The guard counts what is active after the upserts, so it compares the
        confirmed symbols with all that were or now are active. */
    method CollectSymbols(fetched: seq<Fetched>) returns (report: Report)
      modifies table
      ensures report.succeeded + report.failed == |fetched|
      ensures table.active.Keys == old(table.active.Keys) + Confirmed(fetched)
      ensures var confirmed, before := Confirmed(fetched), old(table.Active());
              && table.Active() == (if Trusted(confirmed, before, minFraction) then confirmed else before + confirmed)
              && report.deactivated == (if Trusted(confirmed, before, minFraction) then before - confirmed else {})
              && (report.skipped <==> !Trusted(confirmed, before, minFraction))
    {
      var confirmed, succeeded, failed := UpsertAll(fetched);
      var skipped, deactivated := Reconcile(confirmed);
      report := Report(succeeded, failed, skipped, deactivated);
      UnionParts(old(table.Active()), confirmed);
    }

    method UpsertAll(fetched: seq<Fetched>) returns (confirmed: set<string>, succeeded: nat, failed: nat)
      modifies table
      ensures confirmed == Confirmed(fetched) && succeeded + failed == |fetched|
      ensures table.Active() == old(table.Active()) + confirmed
      ensures table.active.Keys == old(table.active.Keys) + confirmed
    {
      confirmed, succeeded, failed := {}, 0, 0;
      for i := 0 to |fetched|
        invariant confirmed == Confirmed(fetched[..i]) && succeeded + failed == i
        invariant table.Active() == old(table.Active()) + confirmed
        invariant table.active.Keys == old(table.active.Keys) + confirmed
      {
        ConfirmedSnoc(fetched, i);
        if fetched[i].valid {
          table.Upsert(fetched[i].symbol);
          succeeded := succeeded + 1;
          confirmed := confirmed + {fetched[i].symbol};
        } else {
          failed := failed + 1;
        }
      }
      assert fetched[..|fetched|] == fetched;
    }

    /** `_reconcile_universe` */
    method Reconcile(confirmed: set<string>) returns (skipped: bool, deactivated: set<string>)
      modifies table
      ensures table.active.Keys == old(table.active.Keys)
      ensures var before := old(table.Active());
              var trusted := before == {} || |confirmed| as real >= |before| as real * minFraction;
              && (skipped <==> !trusted)
              && deactivated == (if trusted then before - confirmed else {})
              && table.Active() == if trusted then before * confirmed else before
    {
      var previouslyActive := table.Active();
      if previouslyActive == {} { return false, {}; }
      if |confirmed| as real < |previouslyActive| as real * minFraction { return true, {}; }
      deactivated := table.DeactivateMissing(confirmed);
      skipped := false;
    }
  }

  /** Whether the confirmed symbols are enough of those active afterwards. */
  predicate Trusted(confirmed: set<string>, before: set<string>, minFraction: real) {
    before + confirmed == {} || |confirmed| as real >= |before + confirmed| as real * minFraction
  }

  lemma {:induction false} UnionParts(a: set<string>, b: set<string>)
    ensures (a + b) * b == b && (a + b) - b == a - b
  {
  }

  lemma {:induction false} UnionSize(a: set<string>, b: set<string>)
    ensures |a + b| == |a - b| + |b|
  {
    assert a + b == (a - b) + b;
  }

  /** A run never deactivates more than the untrusted fraction of the active symbols. */
  lemma {:induction false} DeactivatesAtMost(confirmed: set<string>, before: set<string>, minFraction: real)
    requires Trusted(confirmed, before, minFraction)
    ensures |before - confirmed| as real <= (1.0 - minFraction) * |before + confirmed| as real
  {
    UnionSize(before, confirmed);
  }

  /** The check as it is described: against what was active before the run. */
  predicate TrustedAsDescribed(confirmed: set<string>, before: set<string>, minFraction: real) {
    before == {} || |confirmed| as real >= |before| as real * minFraction
  }

  /** The check made implies the one described for a fraction between 0 and 1, and is stricter exactly when the
      new symbols raise the bar above the number confirmed. */
  lemma {:induction false} GuardIsStricter(confirmed: set<string>, before: set<string>, minFraction: real)
    requires 0.0 <= minFraction <= 1.0
    ensures Trusted(confirmed, before, minFraction) ==> TrustedAsDescribed(confirmed, before, minFraction)
    ensures TrustedAsDescribed(confirmed, before, minFraction) && !Trusted(confirmed, before, minFraction) <==>
            before != {} && |before| as real * minFraction <= |confirmed| as real
            && |confirmed| as real < (|before| + |confirmed - before|) as real * minFraction
  {
    UnionSize(confirmed, before);
    assert before + confirmed == confirmed + before;
    var b, u := |before| as real, |before + confirmed| as real;
    MulMonotone(minFraction, b, u);
    if before == {} {
      assert before + confirmed == confirmed;
      MulMonotone(u, minFraction, 1.0);
    }
  }

  /** At the default fraction: one confirmed symbol, new, where two others were active. */
  lemma {:induction false} NewSymbolBlocksReconciliation()
    ensures TrustedAsDescribed({"C"}, {"A", "B"}, 0.5) && !Trusted({"C"}, {"A", "B"}, 0.5)
  {
    assert "A"[0] != "B"[0] && "B"[0] != "C"[0] && "A"[0] != "C"[0];
    assert {"A", "B"} + {"C"} == {"A", "B", "C"};
  }
}
