/**
 * The two curricula built on the same engine: the lenient one
 * (my-react-site/src/App.jsx) and the strict one (src/App.jsx).
 */
module Config {

  datatype Variant = Lenient | Strict

  /** Number of tasks in either curriculum. */
  const TaskCount: nat := 7

  /** Index of the name-entry task, completed through the keyboard rather than a command. */
  const NameTask: nat := 2

  /** A failed run shows the hint when at least this many failures already preceded it. */
  function HintAfter(v: Variant): nat {
    match v
    case Lenient => 2
    case Strict => 1
  }

  /** Number of bits the storage-write animation launches. */
  function BitBurstSize(v: Variant): nat {
    match v
    case Lenient => 8
    case Strict => 10
  }

  /** Period of the bit-flow interval, in milliseconds. */
  function BitTickMs(v: Variant): nat {
    match v
    case Lenient => 30
    case Strict => 20
  }

  /** Periods of the other intervals, and the spacing of the bit launches, in milliseconds. */
  const DataTickMs: nat := 50
  const FanTickMs: nat := 16
  const BitSpacingMs: nat := 100
}
