/** Vocabulary shared by the models: identifiers, time and optional values. */
module Common {

  datatype Option<+T> = None | Some(value: T)

  /** Peers, quota sources and connections are compared for equality only. */
  type Peer = nat
  type Source = nat
  type ConnectionId = nat

  /** A monotonic timestamp or a duration, in nanoseconds. */
  type Time = nat
  const SECOND: Time := 1_000_000_000

  /** The 20-bit relay lookup identifier. */
  const LOCATOR_SPACE: nat := 0x10_0000
  type Locator = n: nat | n < LOCATOR_SPACE

  /** The successor in the 20-bit ring. */
  function WrappingNext(l: Locator): Locator {
    (l + 1) % LOCATOR_SPACE
  }

  lemma TakeNext<T>(s: seq<T>, i: nat)
    requires i < |s|
    ensures s[..i + 1] == s[..i] + [s[i]]
  {
  }

  /** The bytes one character takes in UTF-8. */
  function Utf8Size(c: char): nat {
    if c < '\U{80}' then 1 else if c < '\U{800}' then 2 else if c < '\U{10000}' then 3 else 4
  }

  /** The length of a text in bytes. */
  function Utf8Length(s: string): nat {
    if s == "" then 0 else Utf8Length(s[..|s| - 1]) + Utf8Size(s[|s| - 1])
  }

  lemma {:induction false} Utf8Bounds(s: string)
    ensures |s| <= Utf8Length(s) <= 4 * |s|
  {
    if s != "" {
      Utf8Bounds(s[..|s| - 1]);
    }
  }

  lemma {:induction false} SubsetSize<T>(a: set<T>, b: set<T>)
    requires a <= b
    ensures |a| <= |b|
  {
    assert b == a + (b - a);
  }
}
