/** The part of a logs configuration entry (`config.LogSource`) that discovery reads. */
module LogsConfig {

  /** The `Type` value of a source that tails containers (`config.DockerType`). */
  const DockerType: string := "docker"

  /** `config.LogSource` with the fields of its `Config` that discovery reads:
      `Type`, `Path` (file sources), `Image` and `Label` (container sources; `labelFilter` here).
      The status sink is modelled by the operations that report into it. */
  datatype LogSource = LogSource(sourceType: string, path: string, image: string, labelFilter: string)
}
