/** The host's record of one wuBase board (pywub/wubase.py): its base number,
    whether it is powered, its UART settings and its comms mode. */
module WuBaseState {
  import opened Wrappers
  import Text

  const DefaultBaud: int := 9600

  /** A `wuBase` object. `baud` is None until `setbaud` first succeeds: the
      constructor stores its rate under a different attribute, so reading
      `baud` before then raises AttributeError. */
  class WuBase {
    const basenumber: int
    var ispowered: bool
    var autobaud: bool
    var commsbaud: int
    var baud: Option<int>
    var commsMode: string

    /** The two spellings `set_comms_mode` stores. */
    predicate Valid()
      reads this
    {
      commsMode == "ASCII" || commsMode == "BINARY"
    }

    /** A new board is unpowered, autobauds and talks ASCII. */
    constructor (basenumber: int, baud: int)
      ensures Valid()
      ensures this.basenumber == basenumber && !ispowered && autobaud
      ensures commsbaud == baud && this.baud.None? && commsMode == "ASCII"
    {
      this.basenumber := basenumber;
      ispowered := false;
      autobaud := true;
      commsbaud := baud;
      this.baud := None;
      commsMode := "ASCII";
    }

    method SetPowered(state: bool)
      modifies this
      ensures ispowered == state
      ensures autobaud == old(autobaud) && commsbaud == old(commsbaud)
      ensures baud == old(baud) && commsMode == old(commsMode)
    {
      ispowered := state;
    }

    method SetAutobaud(state: bool)
      modifies this
      ensures autobaud == state
      ensures ispowered == old(ispowered) && commsbaud == old(commsbaud)
      ensures baud == old(baud) && commsMode == old(commsMode)
    {
      autobaud := state;
    }

    /** `setbaud`: a rate of at least zero is stored and switches autobaud off.
        A negative rate assigns to the read-only `baud` property, which raises
        AttributeError before autobaud is switched back on, so nothing changes. */
    method SetBaud(rate: int) returns (r: Result<()>)
      modifies this
      ensures rate < 0 <==> r == Raise(AttributeError)
      ensures rate < 0 ==> autobaud == old(autobaud) && baud == old(baud)
      ensures rate >= 0 ==> r.Ok? && baud == Some(rate) && !autobaud
      ensures ispowered == old(ispowered) && commsbaud == old(commsbaud) && commsMode == old(commsMode)
    {
      if rate < 0 {
        return Raise(AttributeError);
      }
      baud := Some(rate);
      SetAutobaud(false);
      return Ok(());
    }

    /** The `baud` property. */
    function Baud(): (r: Result<int>)
      reads this
      ensures r.Ok? <==> baud.Some?
    {
      if baud.Some? then Ok(baud.value) else Raise(AttributeError)
    }

    /** The `isascii` property. */
    function IsAscii(): (r: Result<bool>)
      reads this
      ensures Valid() ==> r == Ok(commsMode == "ASCII")
    {
      Text.IsAsciiMode(commsMode)
    }

    /** `set_comms_mode`: any mode starting with 'a' or 'A' stores "ASCII",
        any other nonempty mode "BINARY"; an empty mode raises IndexError. */
    method SetCommsMode(mode: string) returns (r: Result<()>)
      modifies this
      ensures r.Ok? <==> mode != []
      ensures r.Ok? ==> commsMode == (if mode[0] == 'a' || mode[0] == 'A' then "ASCII" else "BINARY")
      ensures r.Ok? ==> IsAscii() == Text.IsAsciiMode(mode)
      ensures !r.Ok? ==> commsMode == old(commsMode)
      ensures old(Valid()) ==> Valid()
      ensures ispowered == old(ispowered) && autobaud == old(autobaud)
      ensures commsbaud == old(commsbaud) && baud == old(baud)
    {
      var ascii := Text.IsAsciiMode(mode);
      if ascii.Raise? {
        return Raise(ascii.exn);
      }
      commsMode := if ascii.value then "ASCII" else "BINARY";
      return Ok(());
    }
  }
}
