/**
 * `AppManager`: the sheet being edited and the reverse-edge map
 * `cell_dependencies`.  An edit reads the coordinates, builds the content,
 * evaluates a formula, rewires the map (rejecting, and rolling back, an
 * edit the circularity check reports), stores the content and recomputes
 * the formulas that depend on the cell.
 */
module AppManager {
  import opened Wrappers
  import opened Coordinates
  import opened Content
  import Grid = Spreadsheet
  import opened DependencyGraph
  import FE = FormulaEvaluator
  import opened Tokenizer

  // ---------------------------------------------------------------------
  // How the map mirrors the formulas in the grid
  // ---------------------------------------------------------------------

  /** The dependencies the content of cell `f` records: a formula's list, nothing for other content. */
  function Deps(cells: map<Coord, Grid.Cell>, f: Coord): seq<Coord>
  {
    if f in cells && cells[f].content.Formula? && cells[f].content.dependencies.Some?
    then cells[f].content.dependencies.value
    else []
  }

  /** Cell `d` lists formula `f` exactly as often as `f` names `d` among its dependencies. */
  ghost predicate Mirror(g: Graph, cells: map<Coord, Grid.Cell>)
  {
    forall d, f :: Count(g, d, f) == multiset(Deps(cells, f))[d]
  }

  /** Every formula stored in the grid has had its dependencies recorded. */
  predicate FormulasRecorded(cells: map<Coord, Grid.Cell>)
  {
    forall k :: k in cells && cells[k].content.Formula? ==> cells[k].content.dependencies.Some?
  }

  /** Two grids whose cells record the same dependencies. */
  ghost predicate SameDependencies(c1: map<Coord, Grid.Cell>, c2: map<Coord, Grid.Cell>)
  {
    forall f :: Deps(c1, f) == Deps(c2, f)
  }

  /** A cell listed in the map holds a formula. */
  lemma ListedIsFormula(g: Graph, cells: map<Coord, Grid.Cell>, u: Coord, v: Coord)
    requires Mirror(g, cells) && v in Succ(g, u)
    ensures v in cells && cells[v].content.Formula?
  {
    assert Count(g, u, v) > 0;
  }

  /**
   * Rewiring the entries of `x` for its new content (removing one entry per
   * old dependency, adding one per new dependency) keeps the map the exact
   * mirror of the grid once the new content is stored.
   */
  lemma RewiredMirror(g: Graph, cells: map<Coord, Grid.Cell>, x: Coord, content: Content)
    requires Mirror(g, cells) && x in cells
    requires content.Formula? ==> content.dependencies.Some?
    ensures Mirror(Link(Unlink(g, x, Deps(cells, x)), x, Deps(cells[x := Grid.Cell(x, content)], x)),
                   cells[x := Grid.Cell(x, content)])
  {
    var oldDeps := Deps(cells, x);
    var cells' := cells[x := Grid.Cell(x, content)];
    var newDeps := Deps(cells', x);
    UnlinkCounts(g, x, oldDeps);
    var g1 := Unlink(g, x, oldDeps);
    LinkCounts(g1, x, newDeps);
    var g2 := Link(g1, x, newDeps);
    forall d, f
      ensures Count(g2, d, f) == multiset(Deps(cells', f))[d]
    {
      if f != x {
        assert Deps(cells', f) == Deps(cells, f);
      }
    }
  }

  /** Storing content other than a formula after unlinking keeps the map the mirror of the grid, and acyclic. */
  lemma CommitOther(g: Graph, cells: map<Coord, Grid.Cell>, x: Coord, content: Content, rank: Coord -> nat)
    requires Mirror(g, cells) && Ranked(g, rank) && x in cells && !content.Formula?
    ensures var g' := Unlink(g, x, Deps(cells, x));
            Mirror(g', cells[x := Grid.Cell(x, content)]) && Ranked(g', rank)
  {
    RewiredMirror(g, cells, x, content);
    assert Deps(cells[x := Grid.Cell(x, content)], x) == [];
    UnlinkSubgraph(g, x, Deps(cells, x));
  }

  /**
   * Storing a formula after rewiring keeps the map the mirror of the grid;
   * when the rewired map is a tree from `x`, a shifted rank shows it is
   * still acyclic.
   */
  lemma CommitFormula(g: Graph, cells: map<Coord, Grid.Cell>, x: Coord, content: Content, rank: Coord -> nat)
    requires Mirror(g, cells) && Ranked(g, rank) && x in cells
    requires content.Formula? && content.dependencies.Some?
    requires TreeShaped(Link(Unlink(g, x, Deps(cells, x)), x, content.dependencies.value), x)
    ensures var g' := Link(Unlink(g, x, Deps(cells, x)), x, content.dependencies.value);
            Mirror(g', cells[x := Grid.Cell(x, content)]) && Ranked(g', Shifted(g', rank, x))
  {
    RewiredMirror(g, cells, x, content);
    assert Deps(cells[x := Grid.Cell(x, content)], x) == content.dependencies.value;
    var g1 := Unlink(g, x, Deps(cells, x));
    UnlinkSubgraph(g, x, Deps(cells, x));
    LinkOnlyAddsX(g1, x, content.dependencies.value);
    RewiredStaysRanked(g, Link(g1, x, content.dependencies.value), rank, x);
  }

  /** Growing the grid with default cells and revaluing formulas changes no recorded dependency. */
  lemma SameDependenciesKeep(g: Graph, c1: map<Coord, Grid.Cell>, c2: map<Coord, Grid.Cell>)
    requires Mirror(g, c1) && SameDependencies(c1, c2)
    ensures Mirror(g, c2)
  {
  }

  /** The grid after an evaluation: old cells kept, new cells default. */
  ghost predicate Grown(c1: map<Coord, Grid.Cell>, c2: map<Coord, Grid.Cell>)
  {
    && (forall k :: k in c1 ==> k in c2 && c2[k] == c1[k])
    && (forall k :: k in c2 && k !in c1 ==> c2[k].content == DefaultContent)
  }

  /**
   * `grid` is a view of `base` taken while only the cells of `written`
   * may have changed: every other cell of `base` is there unchanged, and a
   * cell `base` lacks holds the default content.
   */
  ghost predicate Agrees(grid: map<Coord, Grid.Cell>, base: map<Coord, Grid.Cell>, written: set<Coord>)
  {
    && (forall k :: k in base && k !in written ==> k in grid && grid[k] == base[k])
    && (forall k :: k in grid && k !in base ==> grid[k].content == DefaultContent)
  }

  /** A view of a grid stays a view of it once the grid grew by cells nobody wrote. */
  lemma AgreesOnGrown(grid: map<Coord, Grid.Cell>, c1: map<Coord, Grid.Cell>, c2: map<Coord, Grid.Cell>,
                      x: Coord, stored: Grid.Cell, written: set<Coord>)
    requires Grown(c1, c2) && (forall k :: k in written ==> k in c1)
    requires Agrees(grid, c2[x := stored], written)
    ensures Agrees(grid, c1[x := stored], written)
  {
    forall k | k in grid && k !in c1[x := stored]
      ensures grid[k].content == DefaultContent
    {
      if k in c2 {
        assert k !in written && grid[k] == c2[k];
      }
    }
  }

  /** A formula of a grown grid was already there. */
  lemma GrownFormula(c1: map<Coord, Grid.Cell>, c2: map<Coord, Grid.Cell>, v: Coord)
    requires Grown(c1, c2) && v in c2 && c2[v].content.Formula?
    ensures v in c1 && c1[v] == c2[v]
  {
  }

  /** A grown grid records the same dependencies, so the map is rewired alike over both. */
  lemma RewiredOnGrown(g: Graph, c1: map<Coord, Grid.Cell>, c2: map<Coord, Grid.Cell>, x: Coord, content: Content)
    requires SameDependencies(c1, c2) && (content.Formula? ==> content.dependencies.Some?)
    ensures Rewired(g, c2, x, content) == Rewired(g, c1, x, content)
  {
    assert Deps(c2, x) == Deps(c1, x);
  }

  /** Storing the same cell in both grids keeps one grown from the other. */
  lemma GrownStore(c1: map<Coord, Grid.Cell>, c2: map<Coord, Grid.Cell>, cell: Coord, x: Grid.Cell)
    requires Grown(c1, c2)
    ensures Grown(c1[cell := x], c2[cell := x])
  {
  }

  lemma GrownSameDependencies(c1: map<Coord, Grid.Cell>, c2: map<Coord, Grid.Cell>)
    requires Grown(c1, c2) && FormulasRecorded(c1)
    ensures SameDependencies(c1, c2) && FormulasRecorded(c2)
  {
    forall f
      ensures Deps(c1, f) == Deps(c2, f)
    {
      if f in c2 && f !in c1 {
        assert c2[f].content == DefaultContent;
      }
    }
  }

  // ---------------------------------------------------------------------
  // The recomputation cascade
  // ---------------------------------------------------------------------

  /** Some cell of the work list `ws` reaches `v`. */
  ghost predicate Covered(g: Graph, ws: seq<Coord>, v: Coord)
  {
    exists i :: 0 <= i < |ws| && Reaches(g, ws[i], v)
  }

  /**
   * The work list `ws` holds dependents of `c` only, so does the set `done`
   * of recomputed cells, and every dependent of `c` is either done or
   * reachable from the work list.
   */
  ghost predicate Cascading(g: Graph, c: Coord, ws: seq<Coord>, done: set<Coord>)
  {
    && (forall i :: 0 <= i < |ws| ==> Dependent(g, c, ws[i]))
    && (forall v :: v in done ==> Dependent(g, c, v))
    && (forall v :: Dependent(g, c, v) ==> v in done || Covered(g, ws, v))
  }

  /** The cells first pushed are those that list `c`, and nothing is done yet. */
  lemma CascadeStart(g: Graph, c: Coord)
    ensures Cascading(g, c, Succ(g, c), {})
  {
    forall i | 0 <= i < |Succ(g, c)|
      ensures Dependent(g, c, Succ(g, c)[i])
    {
      ReachesRefl(g, Succ(g, c)[i]);
    }
  }

  /** Once the work list is empty, every dependent has been recomputed. */
  lemma CascadeDone(g: Graph, c: Coord, done: set<Coord>)
    requires Cascading(g, c, [], done)
    ensures forall v :: Dependent(g, c, v) ==> v in done
  {
  }

  /** Popping the last cell, marking it done and pushing the cells that list it keeps the cascade invariant. */
  lemma CascadeStep(g: Graph, c: Coord, ws: seq<Coord>, done: set<Coord>)
    requires Cascading(g, c, ws, done) && |ws| > 0
    ensures Cascading(g, c, ws[..|ws| - 1] + Succ(g, ws[|ws| - 1]), done + {ws[|ws| - 1]})
  {
    var last := ws[|ws| - 1];
    var ws' := ws[..|ws| - 1] + Succ(g, last);
    assert Dependent(g, c, last);
    forall i | 0 <= i < |ws'|
      ensures Dependent(g, c, ws'[i])
    {
      if i >= |ws| - 1 {
        DependentStep(g, c, last, ws'[i]);
      }
    }
    forall v | Dependent(g, c, v) && v !in done + {last}
      ensures Covered(g, ws', v)
    {
      var i :| 0 <= i < |ws| && Reaches(g, ws[i], v);
      if i < |ws| - 1 {
        assert ws'[i] == ws[i];
      } else {
        ReachesFirst(g, last, v);
        var j :| 0 <= j < |Succ(g, last)| && Reaches(g, Succ(g, last)[j], v);
        assert ws'[|ws| - 1 + j] == Succ(g, last)[j];
      }
    }
  }

  /** The outcome of a formula text's evaluation over a grid. */
  type Evaluator = (string, map<Coord, Grid.Cell>) -> Result<Number>

  /**
   * `evaluate` on a fresh evaluator, whose token cache is empty: the value
   * of the formula text over the grid, or the error raised.
   */
  function FreshEvaluation(repr: string, grid: map<Coord, Grid.Cell>): Result<Number>
  {
    FE.Evaluation([], repr, grid)
  }

  /** `eval` computes what `FreshEvaluation` computes, for every text and grid. */
  ghost predicate EvaluatesFresh(eval: Evaluator)
  {
    forall repr, grid {:trigger FreshEvaluation(repr, grid)} :: eval(repr, grid) == FreshEvaluation(repr, grid)
  }

  /**
   * `FreshEvaluation` under another name.  The contracts of the edit speak
   * of evaluations through it, so that stating one does not unfold the
   * whole token pipeline; only the methods that run an evaluator connect
   * the two.
   */
  type FreshEvaluator = eval: Evaluator | EvaluatesFresh(eval) witness FreshEvaluation

  /** The outcome of `get_tokens` for a formula text over a grid. */
  type TokenStage = (string, map<Coord, Grid.Cell>) -> Result<seq<Token>>

  /** `tokenize` computes what `get_tokens` computes, for every text and grid. */
  ghost predicate TokenizesFresh(tokenize: TokenStage)
  {
    forall repr, grid {:trigger FE.FormulaTokens(repr, grid)} :: tokenize(repr, grid) == FE.FormulaTokens(repr, grid)
  }

  /** `FE.FormulaTokens` under another name, for the same reason as `FreshEvaluator`. */
  type FreshTokenizer = tokenize: TokenStage | TokenizesFresh(tokenize) witness FE.FormulaTokens

  /**
   * The formula `before`, evaluated by `eval` over `grid`, gives a value
   * without error and `after` is it with that value stored, text and
   * dependencies kept.
   */
  predicate Refreshed(before: Content, after: Content, grid: map<Coord, Grid.Cell>, eval: Evaluator)
  {
    && before.Formula?
    && eval(before.representation, grid).Ok?
    && after == before.SetValue(NumberValue(eval(before.representation, grid).value))
  }

  /**
   * The grid during the cascade, against the grid `cells0` it started
   * from: no cell lost, new cells default, cells not yet recomputed
   * untouched, and each recomputed cell `v` holding its formula with the
   * value computed over `log[v]`, the grid of its last evaluation, which
   * shows every cell the cascade has not written as it was in `cells0`.
   */
  ghost predicate CascadeGrid(cells0: map<Coord, Grid.Cell>, cells: map<Coord, Grid.Cell>,
                              log: map<Coord, map<Coord, Grid.Cell>>, eval: Evaluator)
  {
    && (forall k {:trigger k in cells0} :: k in cells0 ==> k in cells)
    && (forall k {:trigger cells[k]} :: k in cells && k !in cells0 ==> cells[k].content == DefaultContent)
    && (forall k {:trigger cells[k]} :: k in cells0 && k !in log ==> cells[k] == cells0[k])
    && (forall v {:trigger log[v]} :: v in log ==> v in cells0 && Refreshed(cells0[v].content, cells[v].content, log[v], eval))
    && ViewsAgree(cells0, log)
  }

  /** Each grid of `log` is a view of `cells0` in which only cells of `log` may have changed. */
  ghost predicate ViewsAgree(cells0: map<Coord, Grid.Cell>, log: map<Coord, map<Coord, Grid.Cell>>)
  {
    forall v {:trigger log[v]} :: v in log ==> Agrees(log[v], cells0, log.Keys)
  }

  /** Logging one more view keeps every view one. */
  lemma ViewsAgreeLogged(cells0: map<Coord, Grid.Cell>, log: map<Coord, map<Coord, Grid.Cell>>,
                         cell: Coord, view: map<Coord, Grid.Cell>)
    requires ViewsAgree(cells0, log) && Agrees(view, cells0, log.Keys)
    ensures ViewsAgree(cells0, log[cell := view])
  {
    var log' := log[cell := view];
    forall v | v in log'
      ensures Agrees(log'[v], cells0, log'.Keys)
    {
      AgreesWider(log'[v], cells0, log.Keys, log'.Keys);
    }
  }

  /** The grid during the cascade is itself a view of the grid it started from. */
  lemma CascadeGridAgrees(cells0: map<Coord, Grid.Cell>, cells: map<Coord, Grid.Cell>,
                          log: map<Coord, map<Coord, Grid.Cell>>, eval: Evaluator)
    requires CascadeGrid(cells0, cells, log, eval)
    ensures Agrees(cells, cells0, log.Keys)
  {
  }

  /**
   * Some formula of `cells`, among `cells`' cells `done`, evaluates by
   * `eval` to the error `err` over a view of `cells` in which only the
   * cells of `written` may have changed.
   */
  ghost predicate FailedIn(cells: map<Coord, Grid.Cell>, done: set<Coord>, written: set<Coord>,
                           err: Error, eval: Evaluator)
  {
    exists f, grid :: && f in done && f in cells && cells[f].content.Formula?
                      && Agrees(grid, cells, written)
                      && eval(cells[f].content.representation, grid) == Err(err)
  }

  /**
   * Some dependent `f` of `c`, a formula of `cells`, evaluates by `eval` to
   * the error `err` over a view of `cells` with `stored` in cell `c`, in
   * which only the cells of `written` may have changed.
   */
  ghost predicate FailedDependent(g: Graph, c: Coord, cells: map<Coord, Grid.Cell>, stored: Grid.Cell,
                                  written: set<Coord>, err: Error, eval: Evaluator)
  {
    exists f, grid :: && Dependent(g, c, f) && f in cells && cells[f].content.Formula?
                      && Agrees(grid, cells[c := stored], written)
                      && eval(cells[f].content.representation, grid) == Err(err)
  }

  /** A formula that failed in a grown grid was there, the same, before it grew. */
  lemma FailedBeforeGrowth(g: Graph, c: Coord, c1: map<Coord, Grid.Cell>, c2: map<Coord, Grid.Cell>,
                           stored: Grid.Cell, written: set<Coord>, err: Error, eval: Evaluator)
    requires Grown(c1, c2) && (forall k :: k in written ==> k in c1)
    requires FailedDependent(g, c, c2, stored, written, err, eval)
    ensures FailedDependent(g, c, c1, stored, written, err, eval)
  {
    var f, grid :| && Dependent(g, c, f) && f in c2 && c2[f].content.Formula?
                   && Agrees(grid, c2[c := stored], written)
                   && eval(c2[f].content.representation, grid) == Err(err);
    GrownFormula(c1, c2, f);
    AgreesOnGrown(grid, c1, c2, c, stored, written);
  }

  /**
   * The cascade after `x` was stored, said of the grid before the store:
   * `x` is no dependent of itself, so each recomputed cell, and the one
   * whose evaluation failed, held the same formula before.
   */
  lemma CascadeBeforeStore(g: Graph, x: Coord, before: map<Coord, Grid.Cell>, cell: Grid.Cell,
                           after: map<Coord, Grid.Cell>, recomputed: set<Coord>,
                           log: map<Coord, map<Coord, Grid.Cell>>, eval: Evaluator)
    requires !Dependent(g, x, x) && log.Keys <= recomputed
    requires forall k :: k in before[x := cell] ==> k in after
    requires forall v :: v in recomputed ==> Dependent(g, x, v)
    requires forall v :: v in log ==>
               v in before[x := cell] && Refreshed(before[x := cell][v].content, after[v].content, log[v], eval)
    ensures forall v :: v in log ==> v != x && v in before && Refreshed(before[v].content, after[v].content, log[v], eval)
    ensures forall err :: FailedIn(before[x := cell], recomputed, log.Keys, err, eval) ==>
                            FailedDependent(g, x, before, cell, log.Keys, err, eval)
  {
    forall err | FailedIn(before[x := cell], recomputed, log.Keys, err, eval)
      ensures FailedDependent(g, x, before, cell, log.Keys, err, eval)
    {
      var stored := before[x := cell];
      var f, grid :| && f in recomputed && f in stored && stored[f].content.Formula?
                     && Agrees(grid, stored, log.Keys)
                     && eval(stored[f].content.representation, grid) == Err(err);
      assert f != x && stored[f] == before[f];
    }
  }

  /** The cascade's grid records the dependencies it started with. */
  lemma CascadeGridSameDependencies(cells0: map<Coord, Grid.Cell>, cells: map<Coord, Grid.Cell>,
                                    log: map<Coord, map<Coord, Grid.Cell>>, eval: Evaluator)
    requires CascadeGrid(cells0, cells, log, eval) && FormulasRecorded(cells0)
    ensures SameDependencies(cells0, cells) && FormulasRecorded(cells)
  {
    forall f
      ensures Deps(cells0, f) == Deps(cells, f)
    {
      if f in cells && f !in cells0 {
        assert cells[f].content == DefaultContent;
      }
    }
  }

  /** A formula cell of the starting grid still holds a formula during the cascade. */
  lemma CascadeGridFormula(cells0: map<Coord, Grid.Cell>, cells: map<Coord, Grid.Cell>,
                           log: map<Coord, map<Coord, Grid.Cell>>, eval: Evaluator, cell: Coord)
    requires CascadeGrid(cells0, cells, log, eval) && cell in cells0 && cells0[cell].content.Formula?
    ensures cell in cells && cells[cell].content.Formula?
    ensures cells[cell].content.representation == cells0[cell].content.representation
  {
  }

  /** An evaluation that only grows the grid keeps the cascade's grid invariant. */
  lemma CascadeGridGrown(cells0: map<Coord, Grid.Cell>, before: map<Coord, Grid.Cell>, after: map<Coord, Grid.Cell>,
                         log: map<Coord, map<Coord, Grid.Cell>>, eval: Evaluator)
    requires CascadeGrid(cells0, before, log, eval) && Grown(before, after)
    ensures CascadeGrid(cells0, after, log, eval)
  {
  }

  /**
   * Revaluing the formula of a cell over the grid `before`, while the grid
   * grows, records `before` as that cell's last evaluation; a second
   * evaluation overwrites the value of the first.
   */
  lemma CascadeGridRevalued(cells0: map<Coord, Grid.Cell>, before: map<Coord, Grid.Cell>,
                            after: map<Coord, Grid.Cell>, log: map<Coord, map<Coord, Grid.Cell>>, eval: Evaluator,
                            cell: Coord)
    requires CascadeGrid(cells0, before, log, eval) && cell in cells0 && cell in before && cell in after
    requires cells0[cell].content.Formula?
    requires Refreshed(before[cell].content, after[cell].content, before, eval)
    requires Grown(before[cell := after[cell]], after)
    ensures CascadeGrid(cells0, after, log[cell := before], eval)
  {
    var c0 := cells0[cell].content;
    assert before[cell].content.representation == c0.representation;
    assert after[cell].content == c0.SetValue(NumberValue(eval(c0.representation, before).value));
    CascadeGridAgrees(cells0, before, log, eval);
    ViewsAgreeLogged(cells0, log, cell, before);
  }

  /** A view in which fewer cells were written is one in which more were. */
  lemma AgreesWider(grid: map<Coord, Grid.Cell>, base: map<Coord, Grid.Cell>, w1: set<Coord>, w2: set<Coord>)
    requires Agrees(grid, base, w1) && w1 <= w2
    ensures Agrees(grid, base, w2)
  {
  }

  /**
   * What the formula branch of an edit makes of the content `given` over
   * `grid`, evaluated by `eval` and tokenized by `tokenize`: a formula gets
   * the value `evaluate` computes, then the coordinates of the cell tokens
   * of the formula's tokens as its dependencies; the first stage that fails gives the
   * error.  Any other content is kept as built.
   */
  function Prepared(given: Content, grid: map<Coord, Grid.Cell>, eval: Evaluator, tokenize: TokenStage): (r: Result<Content>)
    ensures r.Ok? && given.Formula? ==> r.value.Formula? && r.value.dependencies.Some?
  {
    if !given.Formula? then Ok(given)
    else
      var v :- eval(given.representation, grid);
      var tokens :- tokenize(given.representation, grid);
      var deps :- FE.DependenciesOf(tokens);
      Ok(given.SetValue(NumberValue(v)).SetDependencies(deps))
  }

  /** The map once `_update_dependencies` has rewired the entries of `x` for `content`. */
  function Rewired(g: Graph, cells: map<Coord, Grid.Cell>, x: Coord, content: Content): Graph
    requires content.Formula? ==> content.dependencies.Some?
  {
    var unlinked := Unlink(g, x, Deps(cells, x));
    if content.Formula? then Link(unlinked, x, content.dependencies.value) else unlinked
  }

  /** `_update_dependencies` raises nothing: the content is no formula, or the rewired map is a tree from `x`. */
  ghost predicate Accepted(g: Graph, cells: map<Coord, Grid.Cell>, x: Coord, content: Content)
    requires content.Formula? ==> content.dependencies.Some?
  {
    !content.Formula? || TreeShaped(Rewired(g, cells, x, content), x)
  }

  /**
   * The outcome of an edit of cell `c` with the content `given`, from the
   * map `map0` and grid `cells0` to the map `map1` and grid `cells1`.
   * `grid` is the grid once grown to hold the cell, the one the formula is
   * evaluated over.  A failed evaluation, a cell no sheet can hold (column
   * or row 0) and a rewiring that would close a cycle each end the edit
   * with their error and leave the map as it was.  Otherwise the map is
   * rewired, the cell holds the prepared content, and every cell of `log`,
   * a dependent of `c`, holds its formula revalued over its grid in `log`,
   * a view of the grid after the store in which only cells of `log` may
   * have changed; on success that is every dependent, on failure the error
   * is a dependent's over such a view.  No other cell changes, and cells
   * new to the grid hold the default content.
   */
  ghost predicate EditOutcome(map0: Graph, cells0: map<Coord, Grid.Cell>, c: Coord, given: Content,
                              grid: map<Coord, Grid.Cell>, eval: Evaluator, tokenize: TokenStage,
                              r: Result<()>, map1: Graph, cells1: map<Coord, Grid.Cell>,
                              log: map<Coord, map<Coord, Grid.Cell>>)
  {
    var prepared := Prepared(given, grid, eval, tokenize);
    var held := c.col >= 1 && c.row >= 1;
    && Grown(cells0, grid)
    && (held ==> c in grid)
    && (forall k :: k in grid ==> k in cells1)
    && (prepared.Err? ==> r == Err(prepared.error) && map1 == map0 && Grown(grid, cells1))
    && (prepared.Ok? && !held ==> r == Err(KeyNotFound) && map1 == map0 && Grown(grid, cells1))
    && (prepared.Ok? && held && !Accepted(map0, grid, c, prepared.value) ==>
          r == Err(CircularDependency) && map1 == map0 && Grown(grid, cells1))
    && (prepared.Ok? && held && Accepted(map0, grid, c, prepared.value) ==>
          && map1 == Rewired(map0, grid, c, prepared.value)
          && c in cells1 && cells1[c].content == prepared.value
          && (forall k :: k in grid && k != c && k !in log ==> cells1[k] == grid[k])
          && (forall k :: k in cells1 && k !in grid ==> cells1[k].content == DefaultContent)
          && (forall v :: v in log ==> Dependent(map1, c, v) && v in grid)
          && (forall v :: v in log && v in grid ==> Refreshed(grid[v].content, cells1[v].content, log[v], eval))
          && (forall v :: v in log ==> Agrees(log[v], grid[c := Grid.Cell(c, prepared.value)], log.Keys))
          && (r.Ok? ==> forall v :: Dependent(map1, c, v) ==> v in log)
          && (r.Err? ==> FailedDependent(map1, c, grid, Grid.Cell(c, prepared.value), log.Keys, r.error, eval)))
  }

  /**
   * The outcome of storing `content` in cell `x`, from the map `map0` and
   * grid `cells0` to `map1` and `cells1`: a cell missing from the grid and
   * a rewiring that would close a cycle each end it with their error, the
   * map and grid untouched.  Otherwise the map is rewired, `x` holds
   * `content`, the cells outside `log` are untouched, new cells hold the
   * default content, and each cell of `log`, a dependent of `x`, holds its
   * formula revalued over its grid in `log`, a view of the grid after the
   * store in which only cells of `log` may have changed; on success that is
   * every dependent, on failure the error is that of a dependent's
   * evaluation over such a view.
   */
  ghost predicate CommitOutcome(map0: Graph, cells0: map<Coord, Grid.Cell>, x: Coord, content: Content,
                                eval: Evaluator, r: Result<()>, map1: Graph, cells1: map<Coord, Grid.Cell>,
                                log: map<Coord, map<Coord, Grid.Cell>>)
    requires content.Formula? ==> content.dependencies.Some?
  {
    && (forall k :: k in cells0 ==> k in cells1)
    && (x !in cells0 ==> r == Err(KeyNotFound) && map1 == map0 && cells1 == cells0)
    && (x in cells0 && !Accepted(map0, cells0, x, content) ==>
          r == Err(CircularDependency) && map1 == map0 && cells1 == cells0)
    && (x in cells0 && Accepted(map0, cells0, x, content) ==>
          && map1 == Rewired(map0, cells0, x, content)
          && x in cells1 && cells1[x].content == content
          && (forall k :: k in cells0 && k != x && k !in log ==> cells1[k] == cells0[k])
          && (forall k :: k in cells1 && k !in cells0 ==> cells1[k].content == DefaultContent)
          && (forall v :: v in log ==>
                && v != x && v in cells0 && Dependent(map1, x, v)
                && Refreshed(cells0[v].content, cells1[v].content, log[v], eval))
          && (forall v :: v in log ==> Agrees(log[v], cells0[x := Grid.Cell(x, content)], log.Keys))
          && (r.Ok? ==> forall v :: Dependent(map1, x, v) ==> v in log)
          && (r.Err? ==> FailedDependent(map1, x, cells0, Grid.Cell(x, content), log.Keys, r.error, eval)))
  }

  /** An edit whose preparation fails ends with that failure. */
  lemma EditFailedEarly(map0: Graph, cells0: map<Coord, Grid.Cell>, c: Coord, given: Content,
                        grid: map<Coord, Grid.Cell>, eval: Evaluator, tokenize: TokenStage,
                        cells1: map<Coord, Grid.Cell>)
    requires Prepared(given, grid, eval, tokenize).Err?
    requires Grown(cells0, grid) && Grown(grid, cells1)
    requires c.col >= 1 && c.row >= 1 ==> c in grid
    ensures EditOutcome(map0, cells0, c, given, grid, eval, tokenize,
                        Err(Prepared(given, grid, eval, tokenize).error), map0, cells1, map[])
  {
  }

  /**
   * The outcome of the store, over the grid `grid2` the evaluation left,
   * is the outcome of the edit over the grid `grid` it evaluated: the
   * evaluation only added default cells, so the map is rewired alike and
   * every formula is the same in both.
   */
  lemma EditFromCommit(map0: Graph, cells0: map<Coord, Grid.Cell>, c: Coord, given: Content,
                       grid: map<Coord, Grid.Cell>, grid2: map<Coord, Grid.Cell>, content: Content,
                       eval: Evaluator, tokenize: TokenStage,
                       r: Result<()>, map1: Graph, cells1: map<Coord, Grid.Cell>,
                       log: map<Coord, map<Coord, Grid.Cell>>)
    requires Prepared(given, grid, eval, tokenize) == Ok(content)
    requires content.Formula? ==> content.dependencies.Some?
    requires Grown(cells0, grid) && Grown(grid, grid2) && FormulasRecorded(grid)
    requires c.col >= 1 && c.row >= 1 ==> c in grid
    requires c.col == 0 || c.row == 0 ==> c !in grid2
    requires CommitOutcome(map0, grid2, c, content, eval, r, map1, cells1, log)
    ensures EditOutcome(map0, cells0, c, given, grid, eval, tokenize, r, map1, cells1, log)
  {
    GrownSameDependencies(grid, grid2);
    RewiredOnGrown(map0, grid, grid2, c, content);
    if c in grid2 && Accepted(map0, grid2, c, content) {
      assert c in grid;
      CommittedOnGrown(map0, c, grid, grid2, content, eval, r, map1, cells1, log);
    }
  }

  /** The accepted store over a grown grid, restated over the grid before the growth. */
  lemma CommittedOnGrown(map0: Graph, c: Coord, grid: map<Coord, Grid.Cell>, grid2: map<Coord, Grid.Cell>,
                         content: Content, eval: Evaluator,
                         r: Result<()>, map1: Graph, cells1: map<Coord, Grid.Cell>,
                         log: map<Coord, map<Coord, Grid.Cell>>)
    requires content.Formula? ==> content.dependencies.Some?
    requires Grown(grid, grid2) && c in grid && forall k :: k in grid2 ==> k in cells1
    requires map1 == Rewired(map0, grid2, c, content)
    requires forall k :: k in grid2 && k != c && k !in log ==> cells1[k] == grid2[k]
    requires forall k :: k in cells1 && k !in grid2 ==> cells1[k].content == DefaultContent
    requires forall v :: v in log ==>
               && v != c && v in grid2 && Dependent(map1, c, v)
               && Refreshed(grid2[v].content, cells1[v].content, log[v], eval)
    requires forall v :: v in log ==> Agrees(log[v], grid2[c := Grid.Cell(c, content)], log.Keys)
    requires r.Err? ==> FailedDependent(map1, c, grid2, Grid.Cell(c, content), log.Keys, r.error, eval)
    ensures forall v :: v in log ==> Dependent(map1, c, v) && v in grid
    ensures forall k :: k in grid ==> k in cells1
    ensures forall k :: k in grid && k != c && k !in log ==> cells1[k] == grid[k]
    ensures forall k :: k in cells1 && k !in grid ==> cells1[k].content == DefaultContent
    ensures forall v :: v in log && v in grid ==> Refreshed(grid[v].content, cells1[v].content, log[v], eval)
    ensures forall v :: v in log ==> Agrees(log[v], grid[c := Grid.Cell(c, content)], log.Keys)
    ensures r.Err? ==> FailedDependent(map1, c, grid, Grid.Cell(c, content), log.Keys, r.error, eval)
  {
    forall v | v in log
      ensures v in grid && grid[v] == grid2[v]
    {
      GrownFormula(grid, grid2, v);
    }
    forall k | k in cells1 && k !in grid
      ensures cells1[k].content == DefaultContent
    {
      if k in grid2 {
        assert k !in log && k != c && cells1[k] == grid2[k];
      }
    }
    forall v | v in log
      ensures Agrees(log[v], grid[c := Grid.Cell(c, content)], log.Keys)
    {
      AgreesOnGrown(log[v], grid, grid2, c, Grid.Cell(c, content), log.Keys);
    }
    if r.Err? {
      FailedBeforeGrowth(map1, c, grid, grid2, Grid.Cell(c, content), log.Keys, r.error, eval);
    }
  }

  /** A dependent of `c` holds a formula. */
  lemma DependentIsFormula(g: Graph, c: Coord, v: Coord, cells: map<Coord, Grid.Cell>)
    requires Mirror(g, cells) && Dependent(g, c, v)
    ensures v in cells && cells[v].content.Formula?
  {
    DependentIsTarget(g, c, v);
    var u :| v in Succ(g, u);
    ListedIsFormula(g, cells, u, v);
  }

  // ---------------------------------------------------------------------
  // Bookkeeping of the breadth-first search
  // ---------------------------------------------------------------------

  /** Every cell that is the target of an entry of `g`. */
  ghost function Targets(g: Graph): set<Coord>
  {
    set u, i | u in g && 0 <= i < |g[u]| :: g[u][i]
  }

  lemma TargetListed(g: Graph, u: Coord, i: nat)
    requires i < |Succ(g, u)|
    ensures Succ(g, u)[i] in Targets(g)
  {
    assert u in g && g[u][i] == Succ(g, u)[i];
  }

  ghost predicate Distinct(s: seq<Coord>)
  {
    forall a, b :: 0 <= a < b < |s| ==> s[a] != s[b]
  }

  /** The first pending cell has not been expanded before. */
  lemma PendingNotExpanded(order: seq<Coord>, pending: seq<Coord>, future: seq<Coord>)
    requires Distinct(order + pending + future) && |pending| > 0
    ensures pending[0] !in order
  {
    var all := order + pending + future;
    assert all[|order|] == pending[0];
    forall a | 0 <= a < |order|
      ensures order[a] != pending[0]
    {
      assert all[a] == order[a];
    }
  }

  /** Queuing a cell not seen before keeps every seen cell seen once. */
  lemma QueueUnseen(order: seq<Coord>, pending: seq<Coord>, future: seq<Coord>, x: Coord)
    requires Distinct(order + pending + future) && x !in order && x !in pending && x !in future
    ensures Distinct(order + pending + (future + [x]))
  {
    var all := order + pending + future;
    assert order + pending + (future + [x]) == all + [x];
    assert x !in all;
  }

  /**
   * The search state from start `s`: `checked` are the cells seen, each seen
   * once (the expanded cells `order`, those waiting in `pending`, and those
   * queued for the next level in `future`); every seen cell but `s` records
   * in `parent` the one entry it was reached by, and every entry of an
   * expanded cell was followed.
   */
  ghost predicate Searching(g: Graph, s: Coord, universe: set<Coord>, checked: set<Coord>, checked0: set<Coord>,
                            order: seq<Coord>, pending: seq<Coord>, future: seq<Coord>,
                            parent: map<Coord, (Coord, nat)>)
  {
    && s in checked && s !in parent && checked <= universe
    && (forall v :: v in checked ==> Reaches(g, s, v))
    && (forall v :: v in checked <==> v in order || v in pending || v in future)
    && Distinct(order + pending + future)
    && (forall v :: v in checked && v != s ==> v in parent)
    && (forall v :: v in parent ==> v in checked)
    && (forall v :: v in parent ==> parent[v].1 < |Succ(g, parent[v].0)| && Succ(g, parent[v].0)[parent[v].1] == v)
    && (forall u, i :: u in order && 0 <= i < |Succ(g, u)| ==> Succ(g, u)[i] in parent && parent[Succ(g, u)[i]] == (u, i))
    && checked0 <= checked
    && (forall v :: v in future ==> v !in checked0)
    && (forall v :: v in checked ==> v in checked0 || v in future)
  }

  /** Once every entry of the first pending cell has been followed, that cell counts as expanded. */
  lemma ExpandedCell(g: Graph, s: Coord, universe: set<Coord>, checked: set<Coord>, checked0: set<Coord>,
                     order: seq<Coord>, pending: seq<Coord>, future: seq<Coord>,
                     parent: map<Coord, (Coord, nat)>)
    requires Searching(g, s, universe, checked, checked0, order, pending, future, parent)
    requires |pending| > 0
    requires forall i :: 0 <= i < |Succ(g, pending[0])| ==>
               Succ(g, pending[0])[i] in parent && parent[Succ(g, pending[0])[i]] == (pending[0], i)
    ensures Searching(g, s, universe, checked, checked0, order + [pending[0]], pending[1..], future, parent)
  {
    assert order + pending + future == (order + [pending[0]]) + pending[1..] + future;
    assert pending == [pending[0]] + pending[1..];
  }

  lemma {:induction false} SubsetCard(a: set<Coord>, b: set<Coord>)
    requires a <= b
    ensures |a| <= |b|
  {
    if a != {} {
      var x :| x in a;
      SubsetCard(a - {x}, b - {x});
    }
  }

  /** A strictly larger set of seen cells leaves fewer unseen ones. */
  lemma FewerUnseen(universe: set<Coord>, a: set<Coord>, b: set<Coord>, x: Coord)
    requires a <= b <= universe && x in b && x !in a
    ensures |universe - b| < |universe - a|
  {
    SubsetCard(universe - b, universe - a - {x});
  }

  // ---------------------------------------------------------------------
  // The loops over the map, on its value
  // ---------------------------------------------------------------------

  /**
   * The removal loop of `_update_dependencies`: `remove(x)` on the list of
   * each cell of `deps`; every list holds the entry it loses, so no removal
   * fails.
   */
  method RemoveDependent(g: Graph, x: Coord, deps: seq<Coord>) returns (g': Graph)
    requires forall d :: multiset(deps)[d] <= Count(g, d, x)
    ensures g' == Unlink(g, x, deps)
  {
    g' := g;
    var k := 0;
    while k < |deps|
      invariant 0 <= k <= |deps|
      invariant g' == Unlink(g, x, deps[..k])
    {
      var cell := deps[k];
      NextEntryPresent(g, x, deps, k);
      assert cell in g';
      assert deps[..k + 1] == deps[..k] + [cell];
      assert Unlink(g, x, deps[..k + 1]) == RemoveEntry(g', x, cell);
      g' := g'[cell := RemoveFirst(g'[cell], x)];
      k := k + 1;
    }
    assert deps[..|deps|] == deps;
  }

  /** The append loop of `_update_dependencies`: a missing list is created, then `x` appended to it. */
  method AddDependent(g: Graph, x: Coord, deps: seq<Coord>) returns (g': Graph)
    ensures g' == Link(g, x, deps)
  {
    g' := g;
    var k := 0;
    while k < |deps|
      invariant 0 <= k <= |deps|
      invariant g' == Link(g, x, deps[..k])
    {
      var cell := deps[k];
      if cell !in g' {
        g' := g'[cell := []];
      }
      g' := g'[cell := g'[cell] + [x]];
      assert deps[..k + 1] == deps[..k] + [cell];
      k := k + 1;
    }
    assert deps[..|deps|] == deps;
  }

  /** An entry of the first pending cell that leads to a cell already seen shows the map is not a tree. */
  lemma EntryRevisits(g: Graph, s: Coord, universe: set<Coord>, checked: set<Coord>, checked0: set<Coord>,
                      order: seq<Coord>, pending: seq<Coord>, future: seq<Coord>,
                      parent: map<Coord, (Coord, nat)>, k: nat)
    requires Searching(g, s, universe, checked, checked0, order, pending, future, parent)
    requires |pending| > 0 && k < |Succ(g, pending[0])| && Succ(g, pending[0])[k] in checked
    requires forall v :: v in parent ==> parent[v].0 in order || (parent[v].0 == pending[0] && parent[v].1 < k)
    ensures !TreeShaped(g, s)
  {
    var cell := pending[0];
    var dep := Succ(g, cell)[k];
    assert cell in checked;
    PendingNotExpanded(order, pending, future);
    if dep == s {
      assert Reaches(g, s, cell) && Succ(g, cell)[k] == s;
    } else {
      var (u, i) := parent[dep];
      assert u != cell || i != k;
      assert Reaches(g, s, u) && Reaches(g, s, cell) && Succ(g, u)[i] == Succ(g, cell)[k];
    }
  }

  /** An entry of the first pending cell that leads to an unseen cell queues that cell. */
  lemma EntryQueued(g: Graph, s: Coord, universe: set<Coord>, checked: set<Coord>, checked0: set<Coord>,
                    order: seq<Coord>, pending: seq<Coord>, future: seq<Coord>,
                    parent: map<Coord, (Coord, nat)>, k: nat)
    requires universe == Targets(g) + {s}
    requires Searching(g, s, universe, checked, checked0, order, pending, future, parent)
    requires |pending| > 0 && k < |Succ(g, pending[0])| && Succ(g, pending[0])[k] !in checked
    ensures var dep := Succ(g, pending[0])[k];
            Searching(g, s, universe, checked + {dep}, checked0, order, pending, future + [dep],
                      parent[dep := (pending[0], k)])
  {
    var cell := pending[0];
    var dep := Succ(g, cell)[k];
    assert cell in checked;
    PendingNotExpanded(order, pending, future);
    ReachesStep(g, s, cell, dep);
    TargetListed(g, cell, k);
    QueueUnseen(order, pending, future, dep);
  }

  /** A level whose cells are all expanded hands its queue on as the next level. */
  lemma LevelDone(g: Graph, s: Coord, universe: set<Coord>, checked: set<Coord>, checked0: set<Coord>,
                  order: seq<Coord>, future: seq<Coord>, parent: map<Coord, (Coord, nat)>)
    requires Searching(g, s, universe, checked, checked0, order, [], future, parent)
    ensures Searching(g, s, universe, checked, checked, order, future, [], parent)
    ensures |future| == 0 ==> checked == checked0
    ensures |future| > 0 ==> |universe - checked| < |universe - checked0|
  {
    assert order + [] + future == order + future + [];
    if |future| > 0 {
      FewerUnseen(universe, checked0, checked, future[0]);
    }
  }

  /** A search that runs out of cells has seen every reachable cell once: the map is a tree. */
  lemma SearchDone(g: Graph, s: Coord, universe: set<Coord>, checked: set<Coord>,
                   order: seq<Coord>, parent: map<Coord, (Coord, nat)>)
    requires Searching(g, s, universe, checked, checked, order, [], [], parent)
    ensures TreeShaped(g, s)
  {
    assert Closed(g, checked);
    forall u | Reaches(g, s, u)
      ensures u in order
    {
      ClosedContainsReachable(g, s, checked, u);
    }
  }

  /** Recording the k-th entry of `cell` extends the followed prefix of its entries by one. */
  lemma FollowedPrefix(deps: seq<Coord>, k: nat, cell: Coord, checked: set<Coord>,
                       parent: map<Coord, (Coord, nat)>)
    requires k < |deps| && deps[k] !in checked
    requires forall i :: 0 <= i < k ==> deps[i] in checked
    requires forall i :: 0 <= i < k ==> deps[i] in parent && parent[deps[i]] == (cell, i)
    ensures forall i :: 0 <= i < k + 1 ==> deps[i] in checked + {deps[k]}
    ensures var parent' := parent[deps[k] := (cell, k)];
            forall i :: 0 <= i < k + 1 ==> deps[i] in parent' && parent'[deps[i]] == (cell, i)
  {
  }

  /**
   * The inner loop of the search: the entries of `cell`, the first pending
   * cell, are followed in order; an entry leading to a cell already seen is
   * reported, any other cell is queued for the next level.
   */
  method FollowEntries(g: Graph, s: Coord, cell: Coord, checkedCells: set<Coord>, future: seq<Coord>,
                       ghost universe: set<Coord>, ghost checked0: set<Coord>, ghost order: seq<Coord>,
                       ghost pending: seq<Coord>, ghost parent: map<Coord, (Coord, nat)>)
    returns (found: bool, checked': set<Coord>, future': seq<Coord>, ghost parent': map<Coord, (Coord, nat)>)
    requires universe == Targets(g) + {s}
    requires Searching(g, s, universe, checkedCells, checked0, order, pending, future, parent)
    requires |pending| > 0 && pending[0] == cell
    requires forall v :: v in parent ==> parent[v].0 in order
    ensures found ==> !TreeShaped(g, s)
    ensures !found ==>
              && Searching(g, s, universe, checked', checked0, order, pending, future', parent')
              && (forall i :: 0 <= i < |Succ(g, cell)| ==>
                    Succ(g, cell)[i] in parent' && parent'[Succ(g, cell)[i]] == (cell, i))
              && (forall v :: v in parent' ==> parent'[v].0 in order + [cell])
  {
    checked', future', parent' := checkedCells, future, parent;
    var deps := Succ(g, cell);
    var k := 0;
    while k < |deps|
      invariant 0 <= k <= |deps|
      invariant Searching(g, s, universe, checked', checked0, order, pending, future', parent')
      invariant forall i :: 0 <= i < k ==> deps[i] in checked'
      invariant forall i :: 0 <= i < k ==> deps[i] in parent' && parent'[deps[i]] == (cell, i)
      invariant forall v :: v in parent' ==> parent'[v].0 in order || (parent'[v].0 == cell && parent'[v].1 < k)
    {
      var dep := deps[k];
      if dep in checked' {
        EntryRevisits(g, s, universe, checked', checked0, order, pending, future', parent', k);
        return true, checked', future', parent';
      }
      EntryQueued(g, s, universe, checked', checked0, order, pending, future', parent', k);
      FollowedPrefix(deps, k, cell, checked', parent');
      future' := future' + [dep];
      checked' := checked' + {dep};
      parent' := parent'[dep := (cell, k)];
      k := k + 1;
    }
    found := false;
  }

  /** The middle loop of the search: every cell of the current level is expanded in turn. */
  method ExpandLevel(g: Graph, s: Coord, cellsToCheck: seq<Coord>, checkedCells: set<Coord>,
                     ghost universe: set<Coord>, ghost order: seq<Coord>, ghost parent: map<Coord, (Coord, nat)>)
    returns (found: bool, checked': set<Coord>, future: seq<Coord>,
             ghost order': seq<Coord>, ghost parent': map<Coord, (Coord, nat)>)
    requires universe == Targets(g) + {s}
    requires Searching(g, s, universe, checkedCells, checkedCells, order, cellsToCheck, [], parent)
    requires forall v :: v in parent ==> parent[v].0 in order
    ensures found ==> !TreeShaped(g, s)
    ensures !found ==>
              && Searching(g, s, universe, checked', checkedCells, order', [], future, parent')
              && (forall v :: v in parent' ==> parent'[v].0 in order')
  {
    future := [];
    checked', order', parent' := checkedCells, order, parent;
    var j := 0;
    assert cellsToCheck[0..] == cellsToCheck;
    while j < |cellsToCheck|
      invariant 0 <= j <= |cellsToCheck|
      invariant Searching(g, s, universe, checked', checkedCells, order', cellsToCheck[j..], future, parent')
      invariant forall v :: v in parent' ==> parent'[v].0 in order'
    {
      var cell := cellsToCheck[j];
      found, checked', future, parent' :=
        FollowEntries(g, s, cell, checked', future, universe, checkedCells, order', cellsToCheck[j..], parent');
      if found {
        return;
      }
      ExpandedCell(g, s, universe, checked', checkedCells, order', cellsToCheck[j..], future, parent');
      assert cellsToCheck[j..][1..] == cellsToCheck[j + 1..];
      order' := order' + [cell];
      j := j + 1;
    }
    assert cellsToCheck[j..] == [];
    found := false;
  }

  /** The search of `check_circular_dependencies` from one start cell, on the map's value. */
  method Search(g: Graph, s: Coord) returns (b: bool)
    ensures b == !TreeShaped(g, s)
  {
    ghost var universe := Targets(g) + {s};
    var cellsToCheck := [s];
    var checkedCells := {s};
    ghost var order: seq<Coord> := [];
    ghost var parent: map<Coord, (Coord, nat)> := map[];
    ReachesRefl(g, s);
    while |cellsToCheck| > 0
      invariant Searching(g, s, universe, checkedCells, checkedCells, order, cellsToCheck, [], parent)
      invariant forall v :: v in parent ==> parent[v].0 in order
      decreases |universe - checkedCells|, |cellsToCheck|
    {
      ghost var checked0 := checkedCells;
      var found, future;
      found, checkedCells, future, order, parent :=
        ExpandLevel(g, s, cellsToCheck, checkedCells, universe, order, parent);
      if found {
        return true;
      }
      LevelDone(g, s, universe, checkedCells, checked0, order, future, parent);
      cellsToCheck := future;
    }
    SearchDone(g, s, universe, checkedCells, order, parent);
    return false;
  }

  // ---------------------------------------------------------------------
  // The application state
  // ---------------------------------------------------------------------

  class AppManager {
    var sheet: Grid.Spreadsheet
    var cellDependencies: Graph
    /** A rank per cell that every entry decreases: the map has no cycle. */
    ghost var rank: Coord -> nat
    /** `evaluate` on a fresh evaluator, which is what every evaluation of an edit runs. */
    ghost const eval: FreshEvaluator
    /** `get_tokens` on a fresh evaluator. */
    ghost const tokenize: FreshTokenizer

    ghost predicate Valid()
      reads this, sheet
    {
      && sheet.Valid()
      && FormulasRecorded(sheet.cells)
      && Mirror(cellDependencies, sheet.cells)
      && Ranked(cellDependencies, rank)
    }

    /** `AppManager()`: a one-cell sheet named "empty" and no dependencies. */
    constructor()
      ensures Valid() && fresh(sheet)
      ensures sheet.cells.Keys == Grid.GridKeys(1, 1) && cellDependencies == map[]
    {
      sheet := new Grid.Spreadsheet("empty", 1, 1);
      cellDependencies := map[];
      rank := (c: Coord) => 0;
      eval := FreshEvaluation;
      tokenize := FE.FormulaTokens;
    }

    /**
     * `check_circular_dependencies([coords])`: a breadth-first search, level
     * by level, from `coords`, that reports as soon as an entry leads to a
     * cell already seen.  It reports exactly the maps whose part reachable
     * from `coords` is not a tree rooted at `coords`.
     */
    method CheckCircularDependencies(coords: Coord) returns (b: bool)
      ensures b == !TreeShaped(cellDependencies, coords)
    {
      b := Search(cellDependencies, coords);
    }


    /**
     * One step of the recomputation loop: a new evaluator over the cell's
     * own content object evaluates it, which sets the value on that object
     * in place; the model writes the revalued content back to the cell.
     */
    method Revaluate(cell: Coord) returns (e: Result<()>)
      requires sheet.Valid() && cell in sheet.cells && sheet.cells[cell].content.Formula?
      modifies sheet
      ensures sheet.Valid()
      ensures e.Ok? <==> eval(old(sheet.cells)[cell].content.representation, old(sheet.cells)).Ok?
      ensures e.Err? ==> && e.error == eval(old(sheet.cells)[cell].content.representation, old(sheet.cells)).error
                         && Grown(old(sheet.cells), sheet.cells)
      ensures e.Ok? ==> && cell in sheet.cells
                        && Refreshed(old(sheet.cells)[cell].content, sheet.cells[cell].content, old(sheet.cells), eval)
                        && Grown(old(sheet.cells)[cell := sheet.cells[cell]], sheet.cells)
    {
      ghost var before := sheet.cells;
      ghost var repr := before[cell].content.representation;
      assert eval(repr, before) == FreshEvaluation(repr, before);
      var evaluator := new FE.FormulaEvaluator(sheet.cells[cell].content, sheet);
      e := evaluator.Evaluate();
      assert Grown(before, sheet.cells);
      if e.Ok? {
        GrownStore(before, sheet.cells, cell, Grid.Cell(cell, evaluator.formula));
        sheet.SetContent(cell, evaluator.formula);
      }
    }

    /**
     * One turn of the recomputation loop, on the cascade's ghost record:
     * `cell`, a formula of the grid `cells0` the cascade started from, is
     * revalued; on success the grid it was evaluated over becomes its entry
     * in the log, on failure the error is that evaluation's.
     */
    method RecomputeCell(cell: Coord, ghost cells0: map<Coord, Grid.Cell>, ghost log: map<Coord, map<Coord, Grid.Cell>>)
      returns (e: Result<()>, ghost log': map<Coord, map<Coord, Grid.Cell>>)
      requires sheet.Valid()
      requires CascadeGrid(cells0, sheet.cells, log, eval) && cell in cells0 && cells0[cell].content.Formula?
      modifies sheet
      ensures sheet.Valid()
      ensures CascadeGrid(cells0, sheet.cells, log', eval)
      ensures e.Ok? ==> log' == log[cell := old(sheet.cells)] && log'.Keys == log.Keys + {cell}
      ensures e.Err? ==> log' == log && eval(cells0[cell].content.representation, old(sheet.cells)) == Err(e.error)
      ensures e.Err? ==> Agrees(old(sheet.cells), cells0, log.Keys)
    {
      ghost var before := sheet.cells;
      CascadeGridAgrees(cells0, before, log, eval);
      CascadeGridFormula(cells0, before, log, eval, cell);
      e := Revaluate(cell);
      if e.Err? {
        CascadeGridGrown(cells0, before, sheet.cells, log, eval);
        return e, log;
      }
      CascadeGridRevalued(cells0, before, sheet.cells, log, eval, cell);
      log' := log[cell := before];
    }

    /**
     * The recomputation loop of `edit_cell`: a last-in first-out work list
     * starting with the cells that list `coords`; each popped cell is marked
     * recomputed, its formula evaluated in place, and the cells that list it
     * pushed.  The map is acyclic, so the loop ends.  The ghost `log` maps
     * each cell whose evaluation succeeded to the grid of its last
     * evaluation, and the cell holds the value computed over that grid.
     * When no evaluation fails, the cells recomputed are exactly the
     * dependents of `coords`; when one fails, its error is the result.
     */
    method RecomputeDependents(coords: Coord)
      returns (r: Result<()>, recomputed: set<Coord>, ghost log: map<Coord, map<Coord, Grid.Cell>>)
      requires Valid()
      modifies sheet
      ensures Valid()
      ensures forall k :: k in old(sheet.cells) ==> k in sheet.cells
      ensures forall k :: k in sheet.cells && k !in old(sheet.cells) ==> sheet.cells[k].content == DefaultContent
      ensures forall k :: k in old(sheet.cells) && k !in log ==> sheet.cells[k] == old(sheet.cells)[k]
      ensures forall v :: v in log ==>
                v in old(sheet.cells) && Refreshed(old(sheet.cells)[v].content, sheet.cells[v].content, log[v], eval)
      ensures ViewsAgree(old(sheet.cells), log)
      ensures log.Keys <= recomputed
      ensures forall v :: v in recomputed ==> Dependent(cellDependencies, coords, v)
      ensures r.Ok? ==> log.Keys == recomputed
      ensures r.Ok? ==> forall v :: Dependent(cellDependencies, coords, v) ==> v in recomputed
      ensures r.Err? ==> FailedIn(old(sheet.cells), recomputed, log.Keys, r.error, eval)
    {
      var g := cellDependencies;
      ghost var cells0 := sheet.cells;
      assert Mirror(g, cells0) && FormulasRecorded(cells0);
      var dependencies := Succ(g, coords);
      recomputed := {};
      log := map[];
      r := Ok(());
      CascadeStart(g, coords);
      while |dependencies| > 0 && r.Ok?
        invariant sheet.Valid()
        invariant CascadeGrid(cells0, sheet.cells, log, eval)
        invariant log.Keys <= recomputed
        invariant forall v :: v in recomputed ==> Dependent(g, coords, v)
        invariant r.Ok? ==> log.Keys == recomputed && Cascading(g, coords, dependencies, recomputed)
        invariant r.Err? ==> FailedIn(cells0, recomputed, log.Keys, r.error, eval)
        decreases if r.Ok? then 1 else 0, WorkPaths(g, rank, dependencies)
      {
        var cell := dependencies[|dependencies| - 1];
        PopAndExtend(g, rank, dependencies);
        CascadeStep(g, coords, dependencies, recomputed);
        DependentIsFormula(g, coords, cell, cells0);
        dependencies := dependencies[..|dependencies| - 1];
        recomputed := recomputed + {cell};
        ghost var before := sheet.cells;
        var e;
        e, log := RecomputeCell(cell, cells0, log);
        if e.Err? {
          assert Agrees(before, cells0, log.Keys);
          assert eval(cells0[cell].content.representation, before) == Err(e.error);
          r := Err(e.error);
        } else {
          dependencies := dependencies + Succ(g, cell);
        }
      }
      if r.Ok? {
        CascadeDone(g, coords, recomputed);
      }
      assert ViewsAgree(cells0, log);
      CascadeGridSameDependencies(cells0, sheet.cells, log, eval);
      SameDependenciesKeep(g, cells0, sheet.cells);
    }

    /**
     * `_update_dependencies(coords, new_content)`: one entry `coords` is
     * removed from the list of each dependency of the cell's old formula;
     * for a formula, `coords` is appended to the list of each of its
     * dependencies and the map is checked; when the check reports, the map
     * is restored to the snapshot taken on entry and the edit is refused.
     */
    method UpdateDependencies(coords: Coord, content: Content) returns (r: Result<()>)
      requires sheet.Valid() && FormulasRecorded(sheet.cells)
      requires Mirror(cellDependencies, sheet.cells) && Ranked(cellDependencies, rank)
      requires content.Formula? ==> content.dependencies.Some?
      modifies this
      ensures sheet == old(sheet)
      ensures coords !in sheet.cells ==> r == Err(KeyNotFound) && cellDependencies == old(cellDependencies)
      ensures coords in sheet.cells && !content.Formula? ==>
                r == Ok(()) && cellDependencies == Unlink(old(cellDependencies), coords, Deps(sheet.cells, coords))
      ensures coords in sheet.cells && content.Formula? ==>
                var rewired := Link(Unlink(old(cellDependencies), coords, Deps(sheet.cells, coords)),
                                    coords, content.dependencies.value);
                && (r.Ok? <==> TreeShaped(rewired, coords))
                && (r.Ok? ==> cellDependencies == rewired)
                && (r.Err? ==> r.error == CircularDependency && cellDependencies == old(cellDependencies))
      ensures r.Ok? ==> Mirror(cellDependencies, sheet.cells[coords := Grid.Cell(coords, content)])
                        && Ranked(cellDependencies, rank)
      ensures r.Err? ==> rank == old(rank)
    {
      if coords !in sheet.cells {
        return Err(KeyNotFound);
      }
      var snapshot := cellDependencies;
      var previous := sheet.cells[coords].content;
      if previous.Formula? {
        cellDependencies := RemoveDependent(cellDependencies, coords, previous.dependencies.value);
      }
      assert cellDependencies == Unlink(snapshot, coords, Deps(sheet.cells, coords));
      if !content.Formula? {
        CommitOther(snapshot, sheet.cells, coords, content, rank);
        return Ok(());
      }
      cellDependencies := AddDependent(cellDependencies, coords, content.dependencies.value);
      var circular := CheckCircularDependencies(coords);
      if circular {
        cellDependencies := snapshot;
        return Err(CircularDependency);
      }
      CommitFormula(snapshot, sheet.cells, coords, content, rank);
      rank := Shifted(cellDependencies, rank, coords);
      return Ok(());
    }

    /**
     * The formula branch of `edit_cell`: a new evaluator evaluates the
     * content, then records its dependencies from the tokens the
     * evaluation cached; an error from either ends the edit.
     */
    method PrepareFormula(content: Content) returns (r: Result<Content>)
      requires sheet.Valid() && content.Formula?
      modifies sheet
      ensures sheet.Valid() && Grown(old(sheet.cells), sheet.cells)
      ensures r == Prepared(content, old(sheet.cells), eval, tokenize)
    {
      ghost var grid := sheet.cells;
      assert eval(content.representation, grid) == FreshEvaluation(content.representation, grid);
      assert tokenize(content.representation, grid) == FE.FormulaTokens(content.representation, grid);
      var evaluator := new FE.FormulaEvaluator(content, sheet);
      var e := evaluator.Evaluate();
      if e.Err? {
        return Err(e.error);
      }
      ghost var tokens := FE.FormulaTokens(content.representation, grid).value;
      assert evaluator.tokens == tokens;
      FE.NoTokensNoValue(grid);
      var d := evaluator.UpdateDependencies();
      if d.Err? {
        return Err(d.error);
      }
      return Ok(evaluator.formula);
    }

    /**
     * `edit_cell(coords, value)`: read the coordinates, build the content,
     * grow the sheet to hold the cell, evaluate a formula and record its
     * dependencies, rewire the map (an edit that would close a cycle is
     * refused and the map left as it was), store the content and recompute
     * the cells that depend on it.  The ghost `grid` is the sheet's grid
     * once grown, the one the formula is evaluated over; `log` is the
     * recomputation's.  The map stays the mirror of the grid's formulas and
     * acyclic whatever happens.
     */
    method EditCell(coordsText: string, input: Input, parseFloat: string -> Option<real>)
      returns (r: Result<()>, ghost grid: map<Coord, Grid.Cell>, ghost log: map<Coord, map<Coord, Grid.Cell>>)
      requires Valid()
      modifies this, sheet
      ensures sheet == old(sheet) && Valid()
      ensures forall k :: k in old(sheet.cells) ==> k in sheet.cells
      ensures FromText(coordsText).Err? ==>
                r == Err(MalformedCoordinates)
                && sheet.cells == old(sheet.cells) && cellDependencies == old(cellDependencies)
      ensures FromText(coordsText).Ok? ==>
                EditOutcome(old(cellDependencies), old(sheet.cells), FromText(coordsText).value,
                            Get(input, parseFloat), grid, eval, tokenize, r, cellDependencies, sheet.cells, log)
    {
      var parsed := FromText(coordsText);
      if parsed.Err? {
        return Err(parsed.error), sheet.cells, map[];
      }
      r, grid, log := EditAt(parsed.value, Get(input, parseFloat));
    }

    /** `edit_cell` once the coordinates are read and the content built. */
    method EditAt(coords: Coord, given: Content)
      returns (r: Result<()>, ghost grid: map<Coord, Grid.Cell>, ghost log: map<Coord, map<Coord, Grid.Cell>>)
      requires Valid()
      modifies this, sheet
      ensures sheet == old(sheet) && Valid()
      ensures forall k :: k in old(sheet.cells) ==> k in sheet.cells
      ensures EditOutcome(old(cellDependencies), old(sheet.cells), coords, given, grid, eval, tokenize,
                          r, cellDependencies, sheet.cells, log)
    {
      ghost var cells0 := sheet.cells;
      if coords !in sheet.cells {
        sheet.Expand(coords.col, coords.row);
      }
      grid := sheet.cells;
      GrownSameDependencies(cells0, grid);
      var content := given;
      if content.Formula? {
        var prepared := PrepareFormula(content);
        if prepared.Err? {
          GrownSameDependencies(grid, sheet.cells);
          SameDependenciesKeep(cellDependencies, grid, sheet.cells);
          EditFailedEarly(cellDependencies, cells0, coords, given, grid, eval, tokenize, sheet.cells);
          return Err(prepared.error), grid, map[];
        }
        content := prepared.value;
      }
      ghost var map0 := cellDependencies;
      ghost var grid2 := sheet.cells;
      GrownSameDependencies(grid, grid2);
      SameDependenciesKeep(map0, grid, grid2);
      if coords.col == 0 || coords.row == 0 {
        assert coords !in grid2;
      }
      r, log := Commit(coords, content);
      EditFromCommit(map0, cells0, coords, given, grid, grid2, content, eval, tokenize,
                     r, cellDependencies, sheet.cells, log);
    }

    /**
     * The end of `edit_cell`: rewire the map, store the content and
     * recompute the dependents.  A refused rewiring leaves the map and the
     * grid untouched; once the content is stored it stays stored, since the
     * map has no cycle through the cell.
     */
    method Commit(coords: Coord, content: Content) returns (r: Result<()>, ghost log: map<Coord, map<Coord, Grid.Cell>>)
      requires Valid() && (content.Formula? ==> content.dependencies.Some?)
      modifies this, sheet
      ensures sheet == old(sheet) && Valid()
      ensures CommitOutcome(old(cellDependencies), old(sheet.cells), coords, content, eval,
                            r, cellDependencies, sheet.cells, log)
    {
      log := map[];
      var updated := UpdateDependencies(coords, content);
      if updated.Err? {
        return updated, log;
      }
      sheet.SetContent(coords, content);
      RankedHasNoCycle(cellDependencies, rank, coords);
      var recomputed;
      r, recomputed, log := RecomputeDependents(coords);
      CascadeBeforeStore(cellDependencies, coords, old(sheet.cells), Grid.Cell(coords, content), sheet.cells,
                         recomputed, log, eval);
    }
  }
}
