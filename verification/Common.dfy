/** Types shared by every module of the model. */
module Common {
  datatype Option<+T> = None | Some(value: T)

  /** The identity of one connection, and of the session object that belongs to it. */
  type Conn = nat

  type DeviceId = string

  const CLOCK := 0x1_0000_0000

  /** A reading of a 32-bit millisecond clock. */
  type Millis = m: int | 0 <= m < CLOCK

  /** The difference of two readings, as the 32-bit subtraction has it. */
  function Elapsed(now: Millis, since: Millis): Millis {
    if now >= since then now - since else now - since + CLOCK
  }

  lemma EmptyOrHas<T>(s: seq<T>)
    ensures s == [] || exists x :: x in s
  {
    if s != [] {
      assert s[0] in s;
    }
  }

  lemma SumAssociates<T>(a: seq<T>, b: seq<T>, c: seq<T>)
    ensures (a + b) + c == a + (b + c)
  {
  }
}
