/**
  The records of the bag's metadata document (src/metadata.rs). The YAML
  encoding itself is not modelled: a document is this value. Field names are
  the Rust ones in camelCase; `TopicMetadata.typeName` is the Rust `type_`,
  which the document stores under the key `type`.
 */
module BagMetadata {
  import opened Types

  datatype StartingTime = StartingTime(nanosecondsSinceEpoch: I64)

  datatype BagDuration = BagDuration(nanoseconds: I64)

  datatype TopicMetadata = TopicMetadata(
    name: string,
    typeName: string,
    serializationFormat: string,
    offeredQosProfiles: string)

  datatype TopicWithMessageCount = TopicWithMessageCount(
    messageCount: I32,
    topicMetadata: TopicMetadata)

  /** One `files` entry: its own path, start, duration and count. */
  datatype FileInformation = FileInformation(
    path: string,
    startingTime: StartingTime,
    duration: BagDuration,
    messageCount: I32)

  datatype Metadata = Metadata(
    version: I32,
    storageIdentifier: string,
    relativeFilePaths: seq<string>,
    startingTime: StartingTime,
    duration: BagDuration,
    messageCount: I32,
    compressionFormat: string,
    compressionMode: string,
    topicsWithMessageCount: seq<TopicWithMessageCount>,
    files: seq<FileInformation>,
    customData: map<string, string>,
    rosDistro: string)

  /** The whole document: `Metadata` under the single key `rosbag2_bagfile_information`. */
  datatype BagFileInfo = BagFileInfo(rosbag2BagfileInformation: Metadata)
}
