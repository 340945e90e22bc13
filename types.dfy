/** The records the stores, the persistence layer and the runners exchange. */
module Types {

  /** Where a Node installation entry comes from. */
  datatype Source = Nvm | Custom | System

  /** One Node installation: its version label, its path and its origin. */
  datatype NodeVersion = NodeVersion(version: string, path: string, source: Source)

  datatype ProjectKind = NodeProject | StaticProject

  datatype PackageManager = Npm | Yarn | Pnpm | Cnpm {
    /** The command name handed to the runner. */
    function Command(): string {
      match this
      case Npm => "npm"
      case Yarn => "yarn"
      case Pnpm => "pnpm"
      case Cnpm => "cnpm"
    }
  }

  /** A managed project. `nodeVersion` names the Node entry to run it with
      ("" for none, "Default" or its Chinese equivalent for the system entry). */
  datatype Project = Project(
    id: string,
    name: string,
    path: string,
    kind: ProjectKind,
    nodeVersion: string,
    packageManager: PackageManager,
    scripts: seq<string>)

  datatype Settings = Settings(
    editorPath: string,
    defaultTerminal: string,
    locale: string,
    themeMode: string,
    autoUpdate: bool)

  /** What a package scan reports about a project directory. */
  datatype ProjectInfo = ProjectInfo(name: string, scripts: seq<string>, path: string)
}
