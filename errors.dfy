/** Failure-compatible wrappers and the errors the library raises.
    Every `raise` of speedtest_library.rb, and every exception a library
    call there can raise on the paths the library takes, is one constructor
    of `Error`, carrying the values the Ruby message interpolates. */
module Errors {

  datatype Option<+T> = None | Some(value: T)

  /** A value, or the error that was raised instead of producing it. */
  datatype Result<+T> = Success(value: T) | Failure(error: Error)

  /** A call made for its effect: it returned normally, or it raised. */
  datatype Outcome = Pass | Fail(error: Error)

  datatype Error =
    // Server#initialize
    | HostRequired                        // "host required"
    | AfpVolumeRequired(host: string)     // "afp_volume required for host=..."
    // Server#connect
    | MountedAlready(mountPoint: string)  // "... is mounted already ..."
    | ExistsNotMounted(mountPoint: string) // "... exists, but is not mounted ..."
    | UnhandledPattern(filesystem: string) // "Unhandled pattern for filesystem_initial: ..."
    | UnableToMount(mountPoint: string)   // "Unable to mount ..."
    | InvalidProtocol(protocol: string)   // "Attempt to connect with invalid protocol: ..."
    // umount
    | UnableToUnmount                     // "Unable to unmount"
    // TestFile#initialize
    | BytesRequired                       // "bytes required"
    | BasenameRequired                    // "basename required"
    | InvalidTestFileType(fileType: string) // "Attempt to initialize TestFile with invalid type: ..."
    | NegativeArraySize(size: int)        // ArgumentError from Array.new
    // Test
    | ServersRequired                     // "Test requires servers"
    | TransferFileRequired                // "Test requires transfer_file"
    | UnhandledProtocol(protocol: string) // "Unable to handle protocol type=..."
    | InvalidArgument(max: int)           // ArgumentError from Random.rand
    | NoSuchFile(path: string)            // Errno::ENOENT from FileUtils.copy or File.new
    | SameFile(path: string)              // ArgumentError "same file" from FileUtils.copy
    | NilDestination                      // TypeError: afp_destfile is nil
    | NilTimestamps                       // NoMethodError: `-` called on nil time stamps
}
