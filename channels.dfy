/**
 * A channel's raw configuration slots, as the persistence layer keeps them: the function
 * id, four integer slots and two text slots. PHP integers are 64-bit, so every integer
 * slot holds a value inside that range.
 */
module Channels {

  const MinInt64: int := -0x8000_0000_0000_0000
  const MaxInt64: int := 0x7FFF_FFFF_FFFF_FFFF

  predicate IsInt64(x: int)
  {
    MinInt64 <= x <= MaxInt64
  }

  /** A snapshot of one channel's raw slots. */
  datatype ChannelParams = ChannelParams(
    functionId: int,
    param1: int, param2: int, param3: int, param4: int,
    textParam1: string, textParam2: string)

  predicate ValidParams(p: ChannelParams)
  {
    IsInt64(p.functionId) && IsInt64(p.param1) && IsInt64(p.param2) && IsInt64(p.param3) && IsInt64(p.param4)
  }

  /** The channel entity, whose slots a translator reads and overwrites in place. */
  class Channel {
    var functionId: int
    var param1: int
    var param2: int
    var param3: int
    var param4: int
    var textParam1: string
    var textParam2: string

    function Params(): ChannelParams
      reads this
    {
      ChannelParams(functionId, param1, param2, param3, param4, textParam1, textParam2)
    }

    ghost predicate Valid()
      reads this
    {
      ValidParams(Params())
    }

    constructor (p: ChannelParams)
      requires ValidParams(p)
      ensures Valid() && Params() == p
    {
      functionId := p.functionId;
      param1, param2, param3, param4 := p.param1, p.param2, p.param3, p.param4;
      textParam1, textParam2 := p.textParam1, p.textParam2;
    }
  }
}
