/** Conversion between the library's status codes and the kernel's negated errno values. */
module ErrnoCodes {
  import opened Types

  /** A negated errno.  The numbers are the platform's; only that the names denote
      different numbers is used, which C demands of the case labels anyway. */
  datatype Errno =
    | NoError | EINPROGRESS | EREMOTEIO | EXDEV | EPROTO | ECONNRESET | ENOENT | ETIMEDOUT
    | ESHUTDOWN | ENODEV | EILSEQ | ETIME | EOVERFLOW | EPIPE | ECOMM | ENOSR | EINVAL
    | OtherErrno(code: int)

  /** The codes that have a name in the public header. */
  predicate IsNamed(status: int) {
    status in {
      STATUS_SUCCESS, STATUS_PENDING, STATUS_SHORT_PACKET, STATUS_ERROR, STATUS_CANCELED,
      STATUS_TIMEDOUT, STATUS_DEVICE_DISABLED, STATUS_DEVICE_DISCONNECTED, STATUS_BIT_STUFF,
      STATUS_CRC, STATUS_NO_RESPONSE, STATUS_BABBLE, STATUS_STALL, STATUS_BUFFER_OVERRUN,
      STATUS_BUFFER_UNDERRUN, STATUS_ALL_ISO_PACKETS_FAILED }
  }

  /** Exactly the codes that come back unchanged from the kernel's encoding. */
  predicate Survives(status: int, iso: bool) {
    IsNamed(status) && (iso || (status != STATUS_ERROR && status != STATUS_ALL_ISO_PACKETS_FAILED))
  }

  function FromErrno(e: Errno, iso: bool): (status: int)
    ensures IsNamed(status)
  {
    match e
    case NoError => STATUS_SUCCESS
    case EINPROGRESS => STATUS_PENDING
    case EREMOTEIO => STATUS_SHORT_PACKET
    case ENOENT => STATUS_CANCELED
    case ECONNRESET => STATUS_CANCELED
    case ETIMEDOUT => STATUS_TIMEDOUT
    case ESHUTDOWN => STATUS_DEVICE_DISABLED
    case ENODEV => STATUS_DEVICE_DISCONNECTED
    case EPROTO => STATUS_BIT_STUFF
    case EILSEQ => STATUS_CRC
    case ETIME => STATUS_NO_RESPONSE
    case EOVERFLOW => STATUS_BABBLE
    case EPIPE => STATUS_STALL
    case ECOMM => STATUS_BUFFER_OVERRUN
    case ENOSR => STATUS_BUFFER_UNDERRUN
    case EINVAL => if iso then STATUS_ALL_ISO_PACKETS_FAILED else STATUS_ERROR
    case EXDEV => STATUS_ERROR
    case OtherErrno(_) => STATUS_ERROR
  }

  function ToErrno(status: int, iso: bool): (e: Errno)
    ensures FromErrno(e, iso) == status <==> Survives(status, iso)
    ensures e == NoError <==> status == STATUS_SUCCESS
    ensures e == EINVAL <==> iso && status == STATUS_ALL_ISO_PACKETS_FAILED
  {
    if status == STATUS_SUCCESS then NoError
    else if status == STATUS_PENDING then EINPROGRESS
    else if status == STATUS_SHORT_PACKET then EREMOTEIO
    else if status == STATUS_ERROR then (if iso then EXDEV else EPROTO)
    else if status == STATUS_CANCELED then ECONNRESET
    else if status == STATUS_TIMEDOUT then ETIMEDOUT
    else if status == STATUS_DEVICE_DISABLED then ESHUTDOWN
    else if status == STATUS_DEVICE_DISCONNECTED then ENODEV
    else if status == STATUS_BIT_STUFF then EPROTO
    else if status == STATUS_CRC then EILSEQ
    else if status == STATUS_NO_RESPONSE then ETIME
    else if status == STATUS_BABBLE then EOVERFLOW
    else if status == STATUS_STALL then EPIPE
    else if status == STATUS_BUFFER_OVERRUN then ECOMM
    else if status == STATUS_BUFFER_UNDERRUN then ENOSR
    else if status == STATUS_ALL_ISO_PACKETS_FAILED then (if iso then EINVAL else EPROTO)
    else EPROTO
  }

  /** The errnos that the library never sends, and reads as something it does send. */
  predicate ReadOnly(e: Errno, iso: bool) {
    e.ENOENT? || e.OtherErrno? || (!iso && (e.EXDEV? || e.EINVAL?))
  }

  /** An errno comes back unchanged exactly if the library can send it.  Of the others, ENOENT reads
      as a cancellation and the rest as an error. */
  lemma ErrnoComesBackIff(e: Errno, iso: bool)
    ensures ToErrno(FromErrno(e, iso), iso) == e <==> !ReadOnly(e, iso)
    ensures ReadOnly(e, iso) ==> FromErrno(e, iso) == if e.ENOENT? then STATUS_CANCELED else STATUS_ERROR
  {
  }

  /** One trip through the kernel's encoding normalises a status: later trips change nothing. */
  lemma EncodingIsStable(status: int, iso: bool)
    ensures ToErrno(FromErrno(ToErrno(status, iso), iso), iso) == ToErrno(status, iso)
  {
  }

  /** What the library falls back to: EPROTO stands for a bit stuffing error, and for every status that
      has no errno of its own. */
  lemma FallsBackToProtocolError(status: int, iso: bool)
    ensures ToErrno(status, iso) == EPROTO <==> status == STATUS_BIT_STUFF || !Survives(status, iso)
  {
  }

  /** The errnos by which the kernel recognises the statuses that survive. */
  lemma ErrnoNamesStatus(status: int, iso: bool)
    ensures
      var e := ToErrno(status, iso);
      && (e == NoError <==> status == STATUS_SUCCESS)
      && (e == EINPROGRESS <==> status == STATUS_PENDING)
      && (e == EREMOTEIO <==> status == STATUS_SHORT_PACKET)
      && (e == ECONNRESET <==> status == STATUS_CANCELED)
      && (e == ETIMEDOUT <==> status == STATUS_TIMEDOUT)
      && (e == ESHUTDOWN <==> status == STATUS_DEVICE_DISABLED)
      && (e == ENODEV <==> status == STATUS_DEVICE_DISCONNECTED)
      && (e == EILSEQ <==> status == STATUS_CRC)
      && (e == ETIME <==> status == STATUS_NO_RESPONSE)
      && (e == EOVERFLOW <==> status == STATUS_BABBLE)
      && (e == EPIPE <==> status == STATUS_STALL)
      && (e == ECOMM <==> status == STATUS_BUFFER_OVERRUN)
      && (e == ENOSR <==> status == STATUS_BUFFER_UNDERRUN)
      && (e == EXDEV <==> iso && status == STATUS_ERROR)
      && (e == EINVAL <==> iso && status == STATUS_ALL_ISO_PACKETS_FAILED)
  {
  }
}
