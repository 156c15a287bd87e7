/** The return codes both programs use (src/proxy/local/common_l.h, src/server/common.h). */
module Codes {
  const ERRNO_EAGAIN := 1
  const NORMAL := 0
  const OBJECT_ERR := -1
  const ZERO_BYTE := -3
  const NEGATIVE_BYTE := -4
  const BUF_ERR := -5
  const INTERRUPT := -8
  const UNKNOWN := -9
}
