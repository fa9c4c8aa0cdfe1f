/** internal/types/types.go */
module Types {
  /** Server: one running development server as the detector reports it. */
  datatype Server = Server(repo: string, branch: string, process: string, port: int, pid: int, cwd: string)
}
