/** An entry of a channel's model list: an alias, the upstream model it stands for (empty for the alias
    itself) and a switch. */
module ChannelModel {
  datatype ModelEntry = ModelEntry(model: string, redirect: string, disabled: bool)
}
