/** The two records the app passes around. */
module Types {

  /** One frame of the strip. `imageUrl` is the data URL of its artwork,
      `sceneDescription` the prose the artwork was generated from. */
  datatype Panel = Panel(id: string, imageUrl: string, panelText: string, sceneDescription: string)

  /** The script the text model writes for a panel. */
  datatype Script = Script(sceneDescription: string, panelText: string)
}
