/**
  Shared types of the rosbag2 model: the fixed-width integers the Rust code
  uses, the error taxonomy, Option/Result, and the connection records of
  src/lib.rs.
 */
module Types {

  const I32_MIN: int := -0x8000_0000
  const I32_MAX: int := 0x7FFF_FFFF
  const I64_MIN: int := -0x8000_0000_0000_0000
  const I64_MAX: int := 0x7FFF_FFFF_FFFF_FFFF

  /** Rust `i32`. */
  type I32 = x: int | I32_MIN <= x <= I32_MAX
  /** Rust `i64`: timestamps, start times and durations in nanoseconds. */
  type I64 = x: int | I64_MIN <= x <= I64_MAX
  /** Rust `u8`: one byte of an opaque message payload. */
  type Byte = x: int | 0 <= x < 256

  datatype Option<+T> = None | Some(value: T)

  /** The `anyhow::Result<T>` of the source, with the error kinds it raises. */
  datatype Result<+T> = Ok(value: T) | Err(error: Error) {
    predicate IsFailure() { Err? }

    function PropagateFailure<U>(): Result<U>
      requires Err?
    {
      Err(error)
    }

    function Extract(): T
      requires Ok?
    {
      value
    }
  }

  /** One constructor per distinct `anyhow!` message of the core. */
  datatype Error =
    | AlreadyExists(path: string)                      // a database file is already at the path
    | NotOpened                                        // the writer holds no connection
    | DuplicateConnection(connection: TopicConnection) // the (topic, type) pair is already registered
    | UnknownConnection(connection: TopicConnection)   // the connection is not a registered one
    | AggregateUnreadable                              // NULL or out-of-range aggregate read by rusqlite
    | UnsupportedVersion(version: int)                 // document version above 5
    | UnsupportedCompression(mode: string)             // a non-empty compression mode
    | UnsupportedSerialization(format: string)         // a topic not serialized as CDR
    | UnsupportedStorage(identifier: string)           // storage other than sqlite3
    | CannotOpen(path: string)                         // rusqlite open failure of a read-only file
    | MissingTables(path: string)                      // a required table is missing
    | NoSchemaRow                                      // `query_row` on an empty schema table
    | StorageNotOpened                                 // no database is open
    | Callback(message: string)                        // an error returned by a message handler

  /** `ConnectionExt`: the rosbag2-specific part of a connection. */
  datatype ConnectionExt = ConnectionExt(serializationFormat: string, offeredQosProfiles: string)

  /**
    `TopicConnection`. Its derived `PartialEq` compares every field, which is
    exactly Dafny's structural equality on this datatype.
   */
  datatype TopicConnection = TopicConnection(
    id: I32,
    topic: string,
    msgtype: string,
    msgcount: I32,
    ext: ConnectionExt)

  /** `TopicInfo`; `TopicInfo::new` is this constructor. */
  datatype TopicInfo = TopicInfo(msgtype: string, msgcount: I32, connections: seq<TopicConnection>)
}
