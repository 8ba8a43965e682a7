// The counter of an eventfd(2) descriptor that is non-blocking and no semaphore.
module Eventfd {
  const EVENTFD_MAX: nat := 0xffff_ffff_ffff_fffe

  // eventfd_write(fd, 1): a write that would overflow the counter fails and leaves it alone.
  function Bump(n: nat): nat { if n < EVENTFD_MAX then n + 1 else n }
}
