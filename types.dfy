/**
 * Value types shared by the identity-mapping cache: C integer widths,
 * NUL-terminated names, the status codes of the ID_MAPPER_* family and the
 * cache entries (struct idmap_val).
 */
module IdMapTypes {

  /** An `unsigned char`. */
  type Byte = b: int | 0 <= b < 256

  /** `UINT_MAX` for a 32-bit `unsigned int`. */
  const UINT_MAX: int := 0xFFFF_FFFF

  /** `uint32_t`, and so `uid_t` and `gid_t`. */
  type UInt32 = n: int | 0 <= n < 0x1_0000_0000

  /**
   * A C string, represented by the bytes before its terminating NUL: it
   * cannot contain a NUL byte itself.
   */
  type CString = s: seq<Byte> | forall i | 0 <= i < |s| :: s[i] != 0

  /** `time_t`, in seconds; the arithmetic is not bounded in this model. */
  type Time = int

  datatype Option<T> = None | Some(value: T)

  /** The ID_MAPPER_* return codes used by the cache. */
  datatype Status =
    | Success            // ID_MAPPER_SUCCESS
    | InsertMallocError  // ID_MAPPER_INSERT_MALLOC_ERROR
    | InvalidArgument    // ID_MAPPER_INVALID_ARGUMENT
    | NotFound           // ID_MAPPER_NOT_FOUND
    | CacheExpire        // ID_MAPPER_CACHE_EXPIRE
    | Fail               // ID_MAPPER_FAIL

  /**
   * struct idmap_val as stored in a name-keyed table (name -> uid/gid):
   * the write time and the `real_id` arm of the union.
   */
  datatype IdEntry = IdEntry(timestamp: Time, realId: UInt32)

  /**
   * struct idmap_val as stored in an id-keyed table (uid/gid -> name):
   * the write time and the `name` arm of the union.
   */
  datatype NameEntry = NameEntry(timestamp: Time, name: CString)

  /**
   * What a get returns: the status, and the value written through the
   * output pointer (`None` when the function leaves it untouched).
   */
  datatype Reply<T> = Reply(status: Status, out: Option<T>)

  /** An entry written at `timestamp` is still valid at `now` (the test in idmap_get and namemap_get). */
  predicate Fresh(timestamp: Time, now: Time, timeout: int)
  {
    timestamp > now - timeout
  }
}
