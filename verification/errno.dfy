/** The error codes that the modelled calls return. */
module Errors {
  datatype Errno =
    | OK | EINVAL | ENOMEM | EACCES | EPERM | EAGAIN | EFAULT | EBADF
    | EOVERFLOW | ENODEV | EMFILE | EBUSY | ESRCH | EIO | EINTR | ERESTARTNOINTR
}
