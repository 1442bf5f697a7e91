/** Small shared vocabulary: an optional value and the firmware's error numbers. */
module Wrappers {
  datatype Option<T> = None | Some(value: T)
}

/** A byte of a message, a buffer or a C string. */
module Bytes {
  type byte = x: int | 0 <= x < 0x100
}

/**
 * Error numbers of Zephyr's minimal C library. Firmware functions
 * return them negated (`-EINVAL`), and 0 for success.
 */
module Errno {
  const ENOMEM: int := 12
  const EACCES: int := 13
  const EINVAL: int := 22
  const ENOTCONN: int := 128
}
