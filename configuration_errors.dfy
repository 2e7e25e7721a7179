/** The exceptions the configuration classes throw, as values. */
module ConfigurationErrors {

  datatype ConfigError =
      /** ConfigurationKeyMustBeNonEmptyStringException: the key trims to nothing. */
    | KeyMustBeNonEmpty
      /** InvalidDotNotationConfigurationKeyException: some segment of the key is blank. */
    | InvalidDotNotationKey(key: string)
      /** ConfigurationKeyMustBeStringException: an integer key reached `merge`. */
    | KeyMustBeString
      /** InvalidConfigurationKeyException: a segment on the way holds a non-array value. */
    | InvalidKey(operation: string, key: string, segment: string, typeName: string)
      /** InvalidConfigurationValueException: a value that is neither array, scalar nor null. */
    | InvalidValue(key: string, typeName: string)
      /** InvalidConfigurationValueException raised by `wrap` for a non-array value. */
    | CannotWrap(key: string, typeName: string)
      /** ConfigurationDirectoryNotFoundException: realpath() failed. */
    | DirectoryNotResolvable(directory: string)
      /** ConfigurationDirectoryNotFoundException: the real path is not a directory. */
    | DirectoryNotFound(directory: string)
      /** ConfigurationDirectoryNotReadableException. */
    | DirectoryNotReadable(directory: string)
      /** ConfigurationFilePathResolutionException: a listed file has no real path. */
    | FilePathResolution(file: string, directory: string)
      /** ConfigurationFileNotFoundException. */
    | FileNotFound(file: string)
      /** ConfigurationFileNotReadableException. */
    | FileNotReadable(file: string)
      /** FailedToLoadConfigurationFileWithErrorsException: the file raised a PHP error. */
    | FailedToLoadWithErrors(file: string)
      /** FailedToLoadConfigurationFileException: the file threw. */
    | FailedToLoad(file: string)
      /** InvalidConfigurationFileException: the file did not return an array. */
    | InvalidFile(file: string)
}
