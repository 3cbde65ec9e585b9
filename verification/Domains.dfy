/** The two software domains of src/bls_common.h and the limits shared by the
    in-kernel scheduler and its loader. */
module Domains {

  datatype Dom = Big | Little

  const MAX_CPUS := 64
  const MAX_COMM_RULES := 16
  const COMM_LEN := 16

  /** `dom ^ 1`. */
  function Other(d: Dom): Dom {
    if d == Big then Little else Big
  }
}
