/**
 The `PedidosListos` component: its three state cells (the orders on the
 board, the text in the name field and the sound switch) and the handlers
 that overwrite them. Each handler applies its update at once; the clock
 readings it would take are parameters.
 */
module Board {
  import opened Text
  import opened Pedidos

  class PedidosListos {
    /** The orders on the board, oldest first. */
    var pedidos: seq<Pedido>
    /** The text in the name field. */
    var nombre: string
    /** Whether adding an order plays the notification sound. */
    var soundEnabled: bool

    /** Every name on the board is non-empty, trimmed and upper-case. */
    ghost predicate Valid()
      reads this
    {
      WellFormed(pedidos)
    }

    /** The component as first rendered: no orders, an empty field, sound on. */
    constructor ()
      ensures Valid()
      ensures pedidos == [] && nombre == "" && soundEnabled
    {
      pedidos := [];
      nombre := "";
      soundEnabled := true;
    }

    /** The name field's `onChange`: the field now holds `value`. */
    method SetNombre(value: string)
      requires Valid()
      modifies this
      ensures Valid()
      ensures nombre == value
      ensures pedidos == old(pedidos) && soundEnabled == old(soundEnabled)
    {
      nombre := value;
    }

    /** One tick of the one-second interval, at clock reading `now`: the
        orders two minutes old or older leave the board; the others stay, in
        their order, and each of them still shows at least one second. */
    method Tick(now: int)
      requires Valid()
      modifies this
      ensures Valid()
      ensures pedidos == Sweep(old(pedidos), now)
      ensures forall p :: p in pedidos ==> GetTimeRemaining(p.timestamp, now) >= 1
      ensures nombre == old(nombre) && soundEnabled == old(soundEnabled)
    {
      pedidos := Sweep(pedidos, now);
      SweepSurvivorsHaveTimeLeft(old(pedidos), now);
    }

    /** `agregarPedido`, submitting the form. `idNow` and `now` are the two
        clock readings taken for the new order's id and its timestamp. A blank
        field changes nothing. Otherwise the new order is appended after all the
        earlier ones, the field is cleared, and `cue` says whether the
        notification sound is requested, which is so exactly when sound is on. */
    method AgregarPedido(idNow: int, now: int) returns (cue: bool)
      requires Valid()
      modifies this
      ensures Valid()
      ensures soundEnabled == old(soundEnabled)
      ensures IsBlank(old(nombre)) ==> pedidos == old(pedidos) && nombre == old(nombre) && !cue
      ensures !IsBlank(old(nombre)) ==>
        && pedidos == old(pedidos) + [NewPedido(old(nombre), idNow, now)]
        && nombre == ""
        && cue == soundEnabled
    {
      TrimEmptyIffBlank(nombre);
      if Trim(nombre) == [] {
        return false;
      }
      var nuevoPedido := NewPedido(nombre, idNow, now);
      AppendKeepsWellFormed(pedidos, nuevoPedido);
      pedidos := pedidos + [nuevoPedido];
      nombre := "";
      cue := soundEnabled;
    }

    /** `eliminarPedido`, the delete button of a tile: every order with this id
        leaves the board, the others stay in their order. */
    method EliminarPedido(id: int)
      requires Valid()
      modifies this
      ensures Valid()
      ensures pedidos == Remove(old(pedidos), id)
      ensures forall p :: p in pedidos <==> p in old(pedidos) && p.id != id
      ensures (forall p :: p in old(pedidos) ==> p.id != id) ==> pedidos == old(pedidos)
      ensures nombre == old(nombre) && soundEnabled == old(soundEnabled)
    {
      RemoveAbsent(pedidos, id);
      pedidos := Remove(pedidos, id);
    }

    /** The sound button: the switch flips. */
    method ToggleSound()
      requires Valid()
      modifies this
      ensures Valid()
      ensures soundEnabled == !old(soundEnabled)
      ensures pedidos == old(pedidos) && nombre == old(nombre)
    {
      soundEnabled := !soundEnabled;
    }
  }

  /** Pressing the sound button twice puts the switch back. */
  method ToggleSoundTwice(board: PedidosListos)
    requires board.Valid()
    modifies board
    ensures board.Valid()
    ensures board.soundEnabled == old(board.soundEnabled)
    ensures board.pedidos == old(board.pedidos) && board.nombre == old(board.nombre)
  {
    board.ToggleSound();
    board.ToggleSound();
  }
}
