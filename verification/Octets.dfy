/** Bytes as numbers. */
module Octets {
  type Octet = x: nat | x < 256
}
