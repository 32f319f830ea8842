/** The error codes of the library, see include/eaf/utils/errno.h. */
module Errno {
  const SUCCESS := 0
  const UNKNOWN := -1
  const DUPLICATE := -2
  const STATE := -4
  const NOTFOUND := -5
  const OVERFLOW := -6
}
