/** `openCmd`: the command that opens a file or URL on each platform. */
module Platform {

  /** The `switch (process.platform)` table. */
  function OpenCmd(platform: string): (cmd: string)
    ensures cmd == "start" <==> platform == "win32"
    ensures cmd == "open" <==> platform == "darwin"
    ensures cmd == "xdg-open" <==> platform != "win32" && platform != "darwin"
  {
    match platform
    case "win32" => "start"
    case "darwin" => "open"
    case _ => "xdg-open"
  }
}
