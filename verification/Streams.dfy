/** The streams that playlists list. */
module Streams {

  datatype StreamInfo = StreamInfo(title: string, tvgId: string, tvgChNo: string, tvgType: string,
                                   logo: string, group: string, urls: map<string, map<string, string>>,
                                   sourceM3U: string, sourceIndex: int)
}
