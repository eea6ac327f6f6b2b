/**
 The orders of the pickup board as values: the `Pedido` record, the list
 filter the board uses for its periodic sweep and for deleting a tile, the
 order that a submitted name becomes, and the countdown shown on each tile.
 The clock is a parameter (`now`, in milliseconds) everywhere.
 */
module Pedidos {
  import opened Text

  /** How long an order stays on the board: two minutes, in milliseconds. */
  const TTL: int := 2 * 60 * 1000

  /** An order tile. `id` is the clock reading, in milliseconds, whose decimal
      string the board uses as the order's key; `timestamp` is the clock
      reading when the order was created. */
  datatype Pedido = Pedido(id: int, nombre: string, timestamp: int)

  /*
   * Array.prototype.filter
   */

  /** The elements of `s` that satisfy `keep`, in their original order. */
  function Filter<T(!new)>(s: seq<T>, keep: T -> bool): (r: seq<T>)
    ensures |r| <= |s|
    ensures forall x :: x in r <==> x in s && keep(x)
  {
    if s == [] then []
    else
      var rest := Filter(s[1..], keep);
      if keep(s[0]) then [s[0]] + rest else rest
  }

  /** `idx` lists, in strictly increasing order, positions of `s` at which the
      elements of `r` are found. */
  ghost predicate Embeds<T>(idx: seq<int>, r: seq<T>, s: seq<T>) {
    && |idx| == |r|
    && (forall k :: 0 <= k < |idx| ==> 0 <= idx[k] < |s| && r[k] == s[idx[k]])
    && (forall k, l :: 0 <= k < l < |idx| ==> idx[k] < idx[l])
  }

  /** `r` is obtained from `s` by deleting elements: the relative order of what
      is kept does not change. */
  ghost predicate IsSubsequence<T>(r: seq<T>, s: seq<T>) {
    exists idx :: Embeds(idx, r, s)
  }

  /** Each position listed in `idx`, moved one place to the right. */
  function Shift(idx: seq<int>): (r: seq<int>)
    ensures |r| == |idx| && forall k :: 0 <= k < |idx| ==> r[k] == idx[k] + 1
  {
    seq(|idx|, k requires 0 <= k < |idx| => idx[k] + 1)
  }

  /** An embedding of `r` into `s` is one into `[x] + s` once shifted; with
      position 0 in front it embeds `[x] + r` too. */
  lemma EmbedsPrepend<T>(idx: seq<int>, r: seq<T>, s: seq<T>, x: T)
    requires Embeds(idx, r, s)
    ensures Embeds(Shift(idx), r, [x] + s)
    ensures Embeds([0] + Shift(idx), [x] + r, [x] + s)
  {
    var sh := Shift(idx);
    forall k | 0 <= k < |sh| ensures 0 <= sh[k] < |[x] + s| && r[k] == ([x] + s)[sh[k]] {
      assert ([x] + s)[sh[k]] == s[idx[k]];
    }
    var j := [0] + sh;
    forall k | 0 <= k < |j| ensures 0 <= j[k] < |[x] + s| && ([x] + r)[k] == ([x] + s)[j[k]] {
      if k > 0 {
        assert j[k] == sh[k - 1];
        assert ([x] + r)[k] == r[k - 1];
      }
    }
  }

  /** Filtering keeps the surviving elements in their original relative order. */
  lemma {:induction false} FilterIsSubsequence<T(!new)>(s: seq<T>, keep: T -> bool)
    ensures IsSubsequence(Filter(s, keep), s)
  {
    if s == [] {
      assert Embeds([], Filter(s, keep), s);
    } else {
      var rest := Filter(s[1..], keep);
      FilterIsSubsequence(s[1..], keep);
      var idx :| Embeds(idx, rest, s[1..]);
      EmbedsPrepend(idx, rest, s[1..], s[0]);
      assert [s[0]] + s[1..] == s;
      if keep(s[0]) {
        assert Embeds([0] + Shift(idx), Filter(s, keep), s);
      } else {
        assert Embeds(Shift(idx), Filter(s, keep), s);
      }
    }
  }

  /** Filtering keeps every copy of a kept element and no copy of a dropped
      one: nothing is duplicated, lost or introduced. */
  lemma {:induction false} FilterCount<T(!new)>(s: seq<T>, keep: T -> bool, x: T)
    ensures multiset(Filter(s, keep))[x] == if keep(x) then multiset(s)[x] else 0
  {
    if s != [] {
      FilterCount(s[1..], keep, x);
      assert s == [s[0]] + s[1..];
      assert multiset(s) == multiset([s[0]]) + multiset(s[1..]);
    }
  }

  /** Filtering a concatenation filters each part. */
  lemma {:induction false} FilterAppend<T(!new)>(s: seq<T>, t: seq<T>, keep: T -> bool)
    ensures Filter(s + t, keep) == Filter(s, keep) + Filter(t, keep)
  {
    if s == [] {
      assert s + t == t;
    } else {
      assert (s + t)[0] == s[0] && (s + t)[1..] == s[1..] + t;
      FilterAppend(s[1..], t, keep);
    }
  }

  /** A filter that every element passes changes nothing. */
  lemma {:induction false} FilterAllKept<T(!new)>(s: seq<T>, keep: T -> bool)
    requires forall x :: x in s ==> keep(x)
    ensures Filter(s, keep) == s
  {
    if s != [] {
      FilterAllKept(s[1..], keep);
    }
  }

  /** Filtering by a weaker condition first and by a stronger one after is the
      same as filtering by the stronger one alone. */
  lemma {:induction false} FilterWeakerThenStronger<T(!new)>(s: seq<T>, weak: T -> bool, strong: T -> bool)
    requires forall x :: strong(x) ==> weak(x)
    ensures Filter(Filter(s, weak), strong) == Filter(s, strong)
  {
    if s != [] {
      FilterWeakerThenStronger(s[1..], weak, strong);
    }
  }

  /** Two filters can be applied in either order. */
  lemma {:induction false} FilterCommute<T(!new)>(s: seq<T>, a: T -> bool, b: T -> bool)
    ensures Filter(Filter(s, a), b) == Filter(Filter(s, b), a)
  {
    if s != [] {
      FilterCommute(s[1..], a, b);
    }
  }

  /*
   * The sweep
   */

  /** The order is younger than two minutes at time `now`. */
  predicate Live(p: Pedido, now: int) {
    now - p.timestamp < TTL
  }

  /** The sweep the board runs every second: keep the orders younger than two
      minutes. */
  function Sweep(ps: seq<Pedido>, now: int): (r: seq<Pedido>)
    ensures |r| <= |ps|
    ensures forall p :: p in r <==> p in ps && now - p.timestamp < TTL
  {
    Filter(ps, p => Live(p, now))
  }

  /** The sweep keeps the surviving orders in their order on the board, with
      each one's multiplicity, and brings in nothing new. */
  lemma SweepKeepsOrder(ps: seq<Pedido>, now: int)
    ensures IsSubsequence(Sweep(ps, now), ps)
    ensures forall p :: multiset(Sweep(ps, now))[p] == if Live(p, now) then multiset(ps)[p] else 0
  {
    FilterIsSubsequence(ps, p => Live(p, now));
    forall p ensures multiset(Sweep(ps, now))[p] == if Live(p, now) then multiset(ps)[p] else 0 {
      FilterCount(ps, p => Live(p, now), p);
    }
  }

  /** A second sweep at the same instant changes nothing. */
  lemma SweepIdempotent(ps: seq<Pedido>, now: int)
    ensures Sweep(Sweep(ps, now), now) == Sweep(ps, now)
  {
    FilterAllKept(Sweep(ps, now), p => Live(p, now));
  }

  /** A sweep at a later instant subsumes an earlier one: an earlier sweep
      followed by a later one leaves what the later one alone leaves. */
  lemma SweepLater(ps: seq<Pedido>, earlier: int, later: int)
    requires earlier <= later
    ensures Sweep(Sweep(ps, earlier), later) == Sweep(ps, later)
  {
    FilterWeakerThenStronger(ps, p => Live(p, earlier), p => Live(p, later));
  }

  /** On a board where every order is still young the sweep is a no-op. */
  lemma SweepAllLive(ps: seq<Pedido>, now: int)
    requires forall p :: p in ps ==> now - p.timestamp < TTL
    ensures Sweep(ps, now) == ps
  {
    FilterAllKept(ps, p => Live(p, now));
  }

  /** Sweeping a board with one more order at the end sweeps the old board and
      keeps the new order exactly when it is young. */
  lemma SweepAppend(ps: seq<Pedido>, p: Pedido, now: int)
    ensures Sweep(ps + [p], now) == Sweep(ps, now) + (if now - p.timestamp < TTL then [p] else [])
  {
    FilterAppend(ps, [p], q => Live(q, now));
  }

  /** Timestamps do not decrease along the board (orders are appended as the
      clock advances). */
  predicate Chronological(ps: seq<Pedido>) {
    forall i, j :: 0 <= i < j < |ps| ==> ps[i].timestamp <= ps[j].timestamp
  }

  /** On a chronological board the sweep removes a prefix: the oldest orders,
      and only those. */
  lemma {:induction false} SweepDropsOldest(ps: seq<Pedido>, now: int)
    requires Chronological(ps)
    ensures |Sweep(ps, now)| <= |ps| && Sweep(ps, now) == ps[|ps| - |Sweep(ps, now)|..]
  {
    if ps != [] {
      if Live(ps[0], now) {
        SweepAllLive(ps, now);
      } else {
        assert Chronological(ps[1..]);
        SweepDropsOldest(ps[1..], now);
      }
    }
  }

  /** Filtering a chronological board leaves a chronological board; so do
      the sweep and the deletion. */
  lemma {:induction false} FilterKeepsChronological(ps: seq<Pedido>, keep: Pedido -> bool)
    requires Chronological(ps)
    ensures Chronological(Filter(ps, keep))
  {
    if ps != [] {
      var rest := Filter(ps[1..], keep);
      assert Chronological(ps[1..]) by {
        forall i, j | 0 <= i < j < |ps| - 1 ensures ps[1..][i].timestamp <= ps[1..][j].timestamp {
          assert ps[1..][i] == ps[i + 1] && ps[1..][j] == ps[j + 1];
        }
      }
      FilterKeepsChronological(ps[1..], keep);
      if keep(ps[0]) {
        forall j | 0 <= j < |rest| ensures ps[0].timestamp <= rest[j].timestamp {
          assert rest[j] in ps[1..];
          var m :| 0 <= m < |ps| - 1 && ps[1..][m] == rest[j];
          assert rest[j] == ps[m + 1];
        }
        assert Filter(ps, keep) == [ps[0]] + rest;
      }
    }
  }

  /** Adding an order stamped no earlier than every order on the board keeps
      the board chronological: with a clock that does not go back, every board
      the handlers build is chronological, so `SweepDropsOldest` applies. */
  lemma AppendKeepsChronological(ps: seq<Pedido>, nombre: string, idNow: int, now: int)
    requires Chronological(ps)
    requires forall q :: q in ps ==> q.timestamp <= now
    ensures Chronological(ps + [NewPedido(nombre, idNow, now)])
  {
    var qs := ps + [NewPedido(nombre, idNow, now)];
    forall i, j | 0 <= i < j < |qs| ensures qs[i].timestamp <= qs[j].timestamp {
      assert qs[i] == ps[i] && ps[i] in ps;
      if j < |ps| {
        assert qs[j] == ps[j];
      }
    }
  }

  /*
   * Deleting a tile
   */

  /** `eliminarPedido`: keep every order whose id differs from `id`. */
  function Remove(ps: seq<Pedido>, id: int): (r: seq<Pedido>)
    ensures |r| <= |ps|
    ensures forall p :: p in r <==> p in ps && p.id != id
  {
    Filter(ps, (p: Pedido) => p.id != id)
  }

  /** Deleting keeps the other orders in their order on the board, with each
      one's multiplicity. */
  lemma RemoveKeepsOrder(ps: seq<Pedido>, id: int)
    ensures IsSubsequence(Remove(ps, id), ps)
    ensures forall p :: multiset(Remove(ps, id))[p] == if p.id != id then multiset(ps)[p] else 0
  {
    FilterIsSubsequence(ps, (p: Pedido) => p.id != id);
    forall p ensures multiset(Remove(ps, id))[p] == if p.id != id then multiset(ps)[p] else 0 {
      FilterCount(ps, (p: Pedido) => p.id != id, p);
    }
  }

  /** Deleting an id that no order has is a no-op. */
  lemma RemoveAbsent(ps: seq<Pedido>, id: int)
    ensures (forall p :: p in ps ==> p.id != id) ==> Remove(ps, id) == ps
  {
    if forall p :: p in ps ==> p.id != id {
      FilterAllKept(ps, (p: Pedido) => p.id != id);
    }
  }

  /** Deleting the same id twice is the same as deleting it once. */
  lemma RemoveIdempotent(ps: seq<Pedido>, id: int)
    ensures Remove(Remove(ps, id), id) == Remove(ps, id)
  {
    RemoveAbsent(Remove(ps, id), id);
  }

  /** A deletion and a sweep can happen in either order. */
  lemma RemoveSweepCommute(ps: seq<Pedido>, id: int, now: int)
    ensures Sweep(Remove(ps, id), now) == Remove(Sweep(ps, now), id)
  {
    FilterCommute(ps, (p: Pedido) => p.id != id, p => Live(p, now));
  }

  /** Deleting from a concatenation deletes from each part. */
  lemma RemoveAppend(s: seq<Pedido>, t: seq<Pedido>, id: int)
    ensures Remove(s + t, id) == Remove(s, id) + Remove(t, id)
  {
    FilterAppend(s, t, (p: Pedido) => p.id != id);
  }

  /** No two orders on the board share an id. */
  predicate DistinctIds(ps: seq<Pedido>) {
    forall i, j :: 0 <= i < j < |ps| ==> ps[i].id != ps[j].id
  }

  /** When ids are distinct, no order before or after position `k` has the
      id of the order at `k`. */
  lemma IdsAroundDiffer(ps: seq<Pedido>, k: int)
    requires DistinctIds(ps) && 0 <= k < |ps|
    ensures forall p :: p in ps[..k] ==> p.id != ps[k].id
    ensures forall p :: p in ps[k + 1..] ==> p.id != ps[k].id
  {
    forall p | p in ps[..k] ensures p.id != ps[k].id {
      var i :| 0 <= i < k && ps[..k][i] == p;
      assert p == ps[i];
    }
    forall p | p in ps[k + 1..] ensures p.id != ps[k].id {
      var i :| 0 <= i < |ps| - k - 1 && ps[k + 1..][i] == p;
      assert p == ps[k + 1 + i];
    }
  }

  /** When ids are distinct, deleting the id of the order at position `k`
      removes exactly that order. */
  lemma RemoveDistinct(ps: seq<Pedido>, k: int)
    requires DistinctIds(ps) && 0 <= k < |ps|
    ensures Remove(ps, ps[k].id) == ps[..k] + ps[k + 1..]
  {
    var id := ps[k].id;
    var before, after := ps[..k], ps[k + 1..];
    IdsAroundDiffer(ps, k);
    assert ps == before + ([ps[k]] + after);
    calc {
      Remove(ps, id);
        { RemoveAppend(before, [ps[k]] + after, id); }
      Remove(before, id) + Remove([ps[k]] + after, id);
        { RemoveAppend([ps[k]], after, id); }
      Remove(before, id) + (Remove([ps[k]], id) + Remove(after, id));
        { RemoveAbsent(before, id); RemoveAbsent(after, id); }
      before + ([] + after);
    }
  }

  /** Filtering a board whose ids are distinct leaves a board whose ids are
      distinct; so do the sweep and the deletion. */
  lemma {:induction false} FilterKeepsDistinctIds(ps: seq<Pedido>, keep: Pedido -> bool)
    requires DistinctIds(ps)
    ensures DistinctIds(Filter(ps, keep))
  {
    if ps != [] {
      var rest := Filter(ps[1..], keep);
      assert DistinctIds(ps[1..]) by {
        forall i, j | 0 <= i < j < |ps| - 1 ensures ps[1..][i].id != ps[1..][j].id {
          assert ps[1..][i] == ps[i + 1] && ps[1..][j] == ps[j + 1];
        }
      }
      FilterKeepsDistinctIds(ps[1..], keep);
      if keep(ps[0]) {
        forall j | 0 <= j < |rest| ensures rest[j].id != ps[0].id {
          assert rest[j] in ps[1..];
          var m :| 0 <= m < |ps| - 1 && ps[1..][m] == rest[j];
          assert rest[j] == ps[m + 1];
        }
        assert Filter(ps, keep) == [ps[0]] + rest;
      }
    }
  }

  /** An order whose id is newer than every id on the board keeps the ids
      distinct when it is appended. */
  lemma AppendKeepsDistinctIds(ps: seq<Pedido>, p: Pedido)
    requires DistinctIds(ps)
    requires forall q :: q in ps ==> q.id < p.id
    ensures DistinctIds(ps + [p])
  {
    forall i, j | 0 <= i < j < |ps| + 1 ensures (ps + [p])[i].id != (ps + [p])[j].id {
      if j == |ps| {
        assert (ps + [p])[i] == ps[i] && ps[i] in ps;
      } else {
        assert (ps + [p])[i] == ps[i] && (ps + [p])[j] == ps[j];
      }
    }
  }

  /*
   * Adding an order
   */

  /** The order a submitted name becomes: trimmed and upper-cased, with the two
      clock readings as its id and its timestamp. */
  function NewPedido(nombre: string, idNow: int, now: int): (p: Pedido)
    ensures p.id == idNow && p.timestamp == now
    ensures |p.nombre| <= |nombre|
    ensures p.nombre == [] <==> IsBlank(nombre)
    ensures IsTrimmed(p.nombre)
    ensures GoodName(p.nombre) <==> !IsBlank(nombre)
  {
    TrimEmptyIffBlank(nombre);
    ToUpperKeepsTrimmed(Trim(nombre));
    Pedido(idNow, ToUpper(Trim(nombre)), now)
  }

  /** A name as the board shows it: non-empty, trimmed and upper-case. */
  predicate GoodName(s: string) {
    s != [] && IsTrimmed(s) && forall i :: 0 <= i < |s| ==> !('a' <= s[i] <= 'z')
  }

  /** Every name on the board is non-empty, trimmed and upper-case. */
  predicate WellFormed(ps: seq<Pedido>) {
    forall p :: p in ps ==> GoodName(p.nombre)
  }

  /** Appending an order with a well-formed name keeps the board well formed. */
  lemma AppendKeepsWellFormed(ps: seq<Pedido>, p: Pedido)
    requires WellFormed(ps) && GoodName(p.nombre)
    ensures WellFormed(ps + [p])
  {
    forall q | q in ps + [p] ensures GoodName(q.nombre) {
      if q != p {
        assert q in ps;
      }
    }
  }

  /** Appending the order made from a non-blank name, sweeping and deleting
      all keep the board well formed. */
  lemma WellFormedPreserved(ps: seq<Pedido>, nombre: string, idNow: int, now: int, id: int)
    requires WellFormed(ps)
    ensures !IsBlank(nombre) ==> WellFormed(ps + [NewPedido(nombre, idNow, now)])
    ensures WellFormed(Sweep(ps, now))
    ensures WellFormed(Remove(ps, id))
  {
    if !IsBlank(nombre) {
      AppendKeepsWellFormed(ps, NewPedido(nombre, idNow, now));
    }
  }

  /** A freshly added order survives a sweep at its own creation time. */
  lemma NewPedidoSurvivesSweep(ps: seq<Pedido>, nombre: string, idNow: int, now: int)
    ensures var p := NewPedido(nombre, idNow, now);
      Sweep(ps + [p], now) == Sweep(ps, now) + [p]
  {
    SweepAppend(ps, NewPedido(nombre, idNow, now), now);
  }

  /*
   * The countdown on a tile
   */

  /** `Math.max(0, 2 * 60 * 1000 - elapsed)`: the milliseconds left. */
  function RemainingMillis(timestamp: int, now: int): nat
  {
    var elapsed := now - timestamp;
    if TTL - elapsed > 0 then TTL - elapsed else 0
  }

  /** `Math.ceil(m / 1000)` on a non-negative integer number of milliseconds. */
  function CeilSeconds(m: nat): (s: nat)
    ensures s * 1000 >= m
    ensures s == 0 || (s - 1) * 1000 < m
  {
    (m + 999) / 1000
  }

  /** `getTimeRemaining`: the whole seconds, rounded up, until the order
      leaves the board. */
  function GetTimeRemaining(timestamp: int, now: int): (seconds: nat)
    ensures seconds * 1000 >= TTL - (now - timestamp)
    ensures seconds == 0 || (seconds - 1) * 1000 < TTL - (now - timestamp)
  {
    CeilSeconds(RemainingMillis(timestamp, now))
  }

  /** Once the order exists, its countdown is between 0 and 120 seconds, and
      reads 120 at the moment it is created. */
  lemma TimeRemainingBounds(timestamp: int, now: int)
    requires now >= timestamp
    ensures 0 <= GetTimeRemaining(timestamp, now) <= TTL / 1000
    ensures now == timestamp ==> GetTimeRemaining(timestamp, now) == TTL / 1000
  {
  }

  /** The countdown reads 0 exactly when the order is two minutes old or
      older, that is, exactly when the next sweep removes it. */
  lemma TimeRemainingZeroIff(timestamp: int, now: int)
    ensures GetTimeRemaining(timestamp, now) == 0 <==> now - timestamp >= TTL
  {
  }

  /** The countdown never goes up as time passes. */
  lemma TimeRemainingMonotone(timestamp: int, now1: int, now2: int)
    requires now1 <= now2
    ensures GetTimeRemaining(timestamp, now2) <= GetTimeRemaining(timestamp, now1)
  {
  }

  /** Every tile left after a sweep shows at least one second. */
  lemma SweepSurvivorsHaveTimeLeft(ps: seq<Pedido>, now: int)
    ensures forall p :: p in Sweep(ps, now) ==> GetTimeRemaining(p.timestamp, now) >= 1
  {
  }
}
